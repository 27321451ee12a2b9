/** Byte-level views of Rust strings, which are UTF-8 encoded: slicing `&s[..n]`
    counts bytes and panics unless byte `n` is a character boundary, and
    `to_ascii_lowercase` changes only the letters 'A'..'Z'. */
module Text {
  import opened Wrappers

  /** Number of bytes the UTF-8 encoding of `c` occupies. */
  function Utf8Width(c: char): (w: nat)
    ensures 1 <= w <= 4
    ensures w == 1 <==> (c as int) < 0x80
  {
    if (c as int) < 0x80 then 1
    else if (c as int) < 0x800 then 2
    else if (c as int) < 0x1_0000 then 3
    else 4
  }

  /** Number of bytes of the UTF-8 encoding of `s`. */
  function ByteLen(s: string): nat {
    if |s| == 0 then 0 else Utf8Width(s[0]) + ByteLen(s[1..])
  }

  lemma ByteLenAppend(a: string, b: string)
    ensures ByteLen(a + b) == ByteLen(a) + ByteLen(b)
  {
    if |a| == 0 {
      assert a + b == b;
    } else {
      assert (a + b)[1..] == a[1..] + b;
      ByteLenAppend(a[1..], b);
    }
  }

  lemma ByteLenPrefixMonotone(s: string, k: nat, j: nat)
    requires k <= j <= |s|
    ensures ByteLen(s[..k]) + ByteLen(s[k..j]) == ByteLen(s[..j])
    ensures k < j ==> ByteLen(s[..k]) < ByteLen(s[..j])
  {
    assert s[..j] == s[..k] + s[k..j];
    ByteLenAppend(s[..k], s[k..j]);
    if k < j {
      assert s[k..j] == [s[k]] + s[k+1..j];
      ByteLenAppend([s[k]], s[k+1..j]);
      assert ByteLen([s[k]]) == Utf8Width(s[k]) by {
        assert [s[k]][1..] == [];
      }
    }
  }

  /** `&s[..n]` in Rust: the character prefix of `s` whose encoding is exactly
      `n` bytes long, or `None` where Rust panics (fewer than `n` bytes, or byte
      `n` falls inside a multi-byte character). */
  function BytePrefix(s: string, n: nat): (r: Option<string>)
    ensures r.Some? ==> |r.value| <= |s| && r.value == s[..|r.value|] && ByteLen(r.value) == n
    ensures r.None? ==> forall k :: 0 <= k <= |s| ==> ByteLen(s[..k]) != n
    decreases n
  {
    if n == 0 then
      assert s[..0] == [];
      Some([])
    else if |s| == 0 || Utf8Width(s[0]) > n then
      NoPrefixOfWidth(s, n);
      None
    else
      match BytePrefix(s[1..], n - Utf8Width(s[0]))
      case Some(p) =>
        assert [s[0]] + p == s[..|p| + 1];
        ByteLenAppend([s[0]], p);
        assert [s[0]][1..] == [];
        Some([s[0]] + p)
      case None =>
        NoPrefixAfterHead(s, n);
        None
  }

  /** Helper for `BytePrefix`: no prefix reaches `n` bytes when the first
      character already overshoots `n` (or there is no character). */
  lemma NoPrefixOfWidth(s: string, n: nat)
    requires n > 0
    requires |s| == 0 || Utf8Width(s[0]) > n
    ensures forall k :: 0 <= k <= |s| ==> ByteLen(s[..k]) != n
  {
    forall k | 0 <= k <= |s|
      ensures ByteLen(s[..k]) != n
    {
      if k > 0 {
        ByteLenPrefixMonotone(s, 1, k);
        assert s[..1] == [s[0]];
        assert [s[0]][1..] == [];
      } else {
        assert s[..0] == [];
      }
    }
  }

  /** Helper for `BytePrefix`: the boundary search after the first character. */
  lemma NoPrefixAfterHead(s: string, n: nat)
    requires n > 0 && |s| > 0 && Utf8Width(s[0]) <= n
    requires forall k :: 0 <= k <= |s[1..]| ==> ByteLen(s[1..][..k]) != n - Utf8Width(s[0])
    ensures forall k :: 0 <= k <= |s| ==> ByteLen(s[..k]) != n
  {
    forall k | 0 <= k <= |s|
      ensures ByteLen(s[..k]) != n
    {
      if k == 0 {
        assert s[..0] == [];
      } else {
        assert s[..k] == [s[0]] + s[1..][..k-1];
        ByteLenAppend([s[0]], s[1..][..k-1]);
        assert [s[0]][1..] == [];
      }
    }
  }

  /** Rust's `char::to_ascii_lowercase`. */
  function AsciiLowerChar(c: char): char {
    if 'A' <= c <= 'Z' then (c as int + 32) as char else c
  }

  /** Rust's `str::to_ascii_lowercase`: maps every character on its own. */
  function AsciiLower(s: string): (r: string)
    ensures |r| == |s|
    ensures forall i :: 0 <= i < |s| ==> r[i] == AsciiLowerChar(s[i])
  {
    if |s| == 0 then [] else [AsciiLowerChar(s[0])] + AsciiLower(s[1..])
  }

  /** Lowercasing keeps every character's byte width, so a byte slice of the
      lowercased string is the lowercased byte slice. */
  lemma {:induction false} AsciiLowerBytePrefix(s: string, n: nat)
    ensures BytePrefix(AsciiLower(s), n).Some? <==> BytePrefix(s, n).Some?
    ensures BytePrefix(s, n).Some? ==>
              BytePrefix(AsciiLower(s), n).value == AsciiLower(BytePrefix(s, n).value)
    decreases n
  {
    var l := AsciiLower(s);
    if n == 0 {
    } else if |s| == 0 {
    } else {
      assert Utf8Width(l[0]) == Utf8Width(s[0]);
      assert l[1..] == AsciiLower(s[1..]);
      if Utf8Width(s[0]) <= n {
        AsciiLowerBytePrefix(s[1..], n - Utf8Width(s[0]));
        var p := BytePrefix(s[1..], n - Utf8Width(s[0]));
        if p.Some? {
          assert AsciiLower([s[0]] + p.value) == [l[0]] + AsciiLower(p.value);
        }
      }
    }
  }

  /** Lowercasing a string that has no upper-case ASCII letters changes nothing. */
  lemma AsciiLowerFixes(s: string)
    requires forall i :: 0 <= i < |s| ==> !('A' <= s[i] <= 'Z')
    ensures AsciiLower(s) == s
  {
  }
}

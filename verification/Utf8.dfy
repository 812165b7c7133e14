/** Truncation of tool output at a character boundary, against the UTF-8 grammar of section 4
    of RFC 3629. */
module Utf8 {
  import opened Options

  type Byte = x: int | 0 <= x < 256

  predicate IsTail(b: Byte) {
    0x80 <= b < 0xc0
  }

  predicate SecondByteOk(first: Byte, second: Byte) {
    match first
    case 0xe0 => 0xa0 <= second < 0xc0
    case 0xed => 0x80 <= second < 0xa0
    case 0xf0 => 0x90 <= second < 0xc0
    case 0xf4 => 0x80 <= second < 0x90
    case _ => IsTail(second)
  }

  /** The number of bytes of the character a lead byte announces, zero if it announces none. */
  function Announced(first: Byte): (n: nat)
    ensures n <= 4
    ensures n > 0 ==> !IsTail(first)
  {
    if first < 0x80 then 1
    else if 0xc2 <= first < 0xe0 then 2
    else if 0xe0 <= first < 0xf0 then 3
    else if 0xf0 <= first < 0xf5 then 4
    else 0
  }

  /** Whether a character of n bytes stands at the front of s. */
  predicate CharAtFront(s: seq<Byte>, n: nat) {
    1 <= n <= |s| && Announced(s[0]) == n && (n >= 2 ==> SecondByteOk(s[0], s[1])) &&
    forall k :: 1 <= k < n ==> IsTail(s[k])
  }

  /** A sequence of whole characters. */
  predicate Valid(s: seq<Byte>) {
    s == [] || (CharAtFront(s, Announced(s[0])) && Valid(s[Announced(s[0])..]))
  }

  // ---------- where characters begin ----------

  lemma FrontOfPrefix(s: seq<Byte>, n: nat, q: nat)
    requires CharAtFront(s, n) && n <= q <= |s|
    ensures CharAtFront(s[..q], n) && s[..q][n..] == s[n..][..q - n]
  {
  }

  /** In valid text the prefixes that are valid are exactly those that stop before a byte that
      is not a continuation byte, and the whole. */
  lemma {:induction false} BoundaryIff(s: seq<Byte>, q: nat)
    requires Valid(s) && q <= |s|
    ensures Valid(s[..q]) <==> q == |s| || !IsTail(s[q])
    decreases |s|
  {
    if q == 0 {
      assert s[..0] == [];
    } else {
      var n := Announced(s[0]);
      if q < n {
        assert s[..q][0] == s[0];
      } else {
        FrontOfPrefix(s, n, q);
        BoundaryIff(s[n..], q - n);
        assert s[..q][0] == s[0];
      }
    }
  }

  /** No four consecutive bytes of valid text are all continuation bytes. */
  lemma {:induction false} BoundaryIsNear(s: seq<Byte>, q: nat) returns (p: nat)
    requires Valid(s) && q < |s|
    ensures q <= p + 3 && p <= q && !IsTail(s[p])
    decreases |s|
  {
    var n := Announced(s[0]);
    if q < n {
      p := 0;
    } else {
      p := BoundaryIsNear(s[n..], q - n);
      assert s[n..][p] == s[p + n];
      p := p + n;
    }
  }

  lemma FrontOfConcat(a: seq<Byte>, b: seq<Byte>, n: nat)
    requires CharAtFront(a, n)
    ensures CharAtFront(a + b, n) && (a + b)[0] == a[0] && (a + b)[n..] == a[n..] + b
  {
  }

  lemma {:induction false} ValidConcat(a: seq<Byte>, b: seq<Byte>)
    requires Valid(a) && Valid(b)
    ensures Valid(a + b)
    decreases |a|
  {
    if a == [] {
      assert a + b == b;
    } else {
      var n := Announced(a[0]);
      FrontOfConcat(a, b, n);
      ValidConcat(a[n..], b);
    }
  }

  // ---------- the truncation ----------

  /** The longest valid prefix within the bound; at most three bytes are given up. */
  ghost predicate LongestPrefix(s: seq<Byte>, maxLen: nat, pos: nat) {
    pos <= |s| && pos <= maxLen && Valid(s[..pos]) &&
    (forall q :: pos < q <= |s| && q <= maxLen ==> !Valid(s[..q])) &&
    (pos < |s| ==> maxLen <= pos + 3)
  }

  method SafeTruncate(s: seq<Byte>, maxLen: nat) returns (pos: nat)
    ensures pos <= |s| && pos <= maxLen
    ensures |s| <= maxLen ==> pos == |s|
    ensures |s| > maxLen ==> (pos == 0 || !IsTail(s[pos])) && forall k :: pos < k <= maxLen ==> IsTail(s[k])
    ensures Valid(s) ==> LongestPrefix(s, maxLen, pos)
  {
    if |s| <= maxLen {
      assert s[..|s|] == s;
      return |s|;
    }
    pos := maxLen;
    while pos > 0
      invariant pos <= maxLen
      invariant forall k :: pos < k <= maxLen ==> IsTail(s[k])
    {
      var c := s[pos];
      if c < 0x80 || c >= 0xc0 {
        break;
      }
      pos := pos - 1;
    }
    if Valid(s) {
      StopIsLongest(s, maxLen, pos);
    }
  }

  lemma StopIsLongest(s: seq<Byte>, maxLen: nat, pos: nat)
    requires Valid(s) && pos <= maxLen < |s|
    requires pos == 0 || !IsTail(s[pos])
    requires forall k :: pos < k <= maxLen ==> IsTail(s[k])
    ensures LongestPrefix(s, maxLen, pos)
  {
    BoundaryIff(s, pos);
    forall q | pos < q <= maxLen ensures !Valid(s[..q]) {
      BoundaryIff(s, q);
    }
    var p := BoundaryIsNear(s, maxLen);
  }

  const MARKER: seq<Byte> := [0x0a, 0x5b, 0x2e, 0x2e, 0x2e, 0x74, 0x72, 0x75, 0x6e, 0x63, 0x61, 0x74, 0x65, 0x64, 0x5d]

  predicate Ascii(s: seq<Byte>) {
    forall k :: 0 <= k < |s| ==> s[k] < 0x80
  }

  lemma {:induction false} AsciiIsValid(s: seq<Byte>)
    requires Ascii(s)
    ensures Valid(s)
    decreases |s|
  {
    if s != [] {
      AsciiIsValid(s[1..]);
    }
  }

  lemma CutIsValid(kept: seq<Byte>, marker: seq<Byte>)
    requires Valid(kept) && Ascii(marker)
    ensures Valid(kept + marker)
  {
    AsciiIsValid(marker);
    ValidConcat(kept, marker);
  }

  /** The marker is an ASCII text. */
  lemma MarkerIs(k: nat)
    requires k < |MARKER|
    ensures |MARKER| == |"\n[...truncated]"| && MARKER[k] == "\n[...truncated]"[k] as int
  {
  }

  /** The cap put on stored tool output: text in, text out, and never more than the bound plus
      the marker. */
  method CapToolContent(content: seq<Byte>, maxLen: nat) returns (capped: seq<Byte>)
    ensures |content| <= maxLen ==> capped == content
    ensures |content| > maxLen ==> exists pos :: CutAt(content, maxLen, capped, pos)
    ensures |capped| <= maxLen + |MARKER|
    ensures Valid(content) ==> Valid(capped)
  {
    if |content| > maxLen {
      var pos := SafeTruncate(content, maxLen);
      capped := content[..pos] + MARKER;
      assert CutAt(content, maxLen, capped, pos);
      if Valid(content) {
        CutIsValid(content[..pos], MARKER);
      }
    } else {
      capped := content;
    }
  }

  ghost predicate CutAt(content: seq<Byte>, maxLen: nat, capped: seq<Byte>, pos: nat) {
    pos <= |content| && capped == content[..pos] + MARKER && (Valid(content) ==> LongestPrefix(content, maxLen, pos))
  }

  // ---------- the truncation of the MCP client ----------

  const NEWLINE_DOTS: seq<Byte> := [0x0a, 0x2e, 0x2e, 0x2e]
  const DOTS: seq<Byte> := [0x2e, 0x2e, 0x2e]

  /** Where the last newline of the first n bytes is. */
  function LastNewline(s: seq<Byte>, n: nat): (r: Option<nat>)
    requires n <= |s|
    ensures r.Some? ==> r.value < n && s[r.value] == 0x0a
  {
    if n == 0 then None else if s[n - 1] == 0x0a then Some(n - 1) else LastNewline(s, n - 1)
  }

  /** The first n bytes without the continuation bytes at their end. */
  function WithoutTails(s: seq<Byte>, n: nat): (i: nat)
    requires n <= |s|
    ensures i <= n && (i > 0 ==> !IsTail(s[i - 1]))
  {
    if n > 0 && IsTail(s[n - 1]) then WithoutTails(s, n - 1) else n
  }

  predicate CutsAtNewline(s: seq<Byte>, maxLen: nat)
    requires maxLen <= |s|
  {
    LastNewline(s, maxLen).Some? && LastNewline(s, maxLen).value > maxLen / 2
  }

  function McpCut(s: seq<Byte>, maxLen: nat): seq<Byte> {
    if |s| <= maxLen then s
    else if CutsAtNewline(s, maxLen) then s[..LastNewline(s, maxLen).value] + NEWLINE_DOTS
    else s[..WithoutTails(s, maxLen)] + DOTS
  }

  lemma {:induction false} LastNewlineIs(s: seq<Byte>, n: nat)
    requires n <= |s|
    ensures var r := LastNewline(s, n);
            forall k :: (if r.Some? then r.value + 1 else 0) <= k < n ==> s[k] != 0x0a
  {
    if n > 0 && s[n - 1] != 0x0a {
      LastNewlineIs(s, n - 1);
    }
  }

  lemma {:induction false} WithoutTailsIs(s: seq<Byte>, n: nat)
    requires n <= |s|
    ensures forall k :: WithoutTails(s, n) <= k < n ==> 0x80 <= s[k] < 0xc0
  {
    if n > 0 && IsTail(s[n - 1]) {
      WithoutTailsIs(s, n - 1);
    }
  }

  /** In plain terms: a text that fits is left alone; one that does not is cut at the last newline
      past the middle of what fits, */
  lemma McpCutAtNewline(s: seq<Byte>, maxLen: nat, p: nat)
    requires maxLen < |s| && maxLen / 2 < p < maxLen && s[p] == 0x0a && forall k :: p < k < maxLen ==> s[k] != 0x0a
    ensures McpCut(s, maxLen) == s[..p] + [0x0a, 0x2e, 0x2e, 0x2e]
    ensures McpCut(s, |s|) == s
  {
    LastNewlineIs(s, maxLen);
  }

  /** and without such a newline behind the last byte of what fits that is no continuation byte. */
  lemma McpCutAtByte(s: seq<Byte>, maxLen: nat, i: nat)
    requires maxLen < |s| && (forall k :: maxLen / 2 < k < maxLen ==> s[k] != 0x0a) && i <= maxLen
    requires (i > 0 ==> !(0x80 <= s[i - 1] < 0xc0)) && forall k :: i <= k < maxLen ==> 0x80 <= s[k] < 0xc0
    ensures McpCut(s, maxLen) == s[..i] + [0x2e, 0x2e, 0x2e]
  {
    LastNewlineIs(s, maxLen);
    WithoutTailsIs(s, maxLen);
  }

  method McpTruncate(s: seq<Byte>, maxLen: nat) returns (r: seq<Byte>)
    ensures r == McpCut(s, maxLen)
  {
    if |s| <= maxLen {
      return s;
    }
    var pos := maxLen;
    while pos > 0 && s[pos - 1] != 0x0a
      invariant 0 <= pos <= maxLen && LastNewline(s, pos) == LastNewline(s, maxLen)
    {
      pos := pos - 1;
    }
    if pos > 0 && pos - 1 > maxLen / 2 {
      return s[..pos - 1] + NEWLINE_DOTS;
    }
    var i := maxLen;
    while i > 0
      invariant 0 <= i <= maxLen && WithoutTails(s, i) == WithoutTails(s, maxLen)
    {
      var c := s[i - 1];
      if c < 0x80 || c >= 0xc0 {
        break;
      }
      i := i - 1;
    }
    r := s[..i] + DOTS;
  }

  /** In valid text a lead byte is followed by a continuation byte, an ASCII byte is not. */
  lemma {:induction false} NextByte(s: seq<Byte>, k: nat)
    requires Valid(s) && k + 1 < |s| && !IsTail(s[k])
    ensures IsTail(s[k + 1]) <==> s[k] >= 0x80
    decreases |s|
  {
    var n := Announced(s[0]);
    if k >= n {
      NextByte(s[n..], k - n);
    } else if n == 1 {
      assert CharAtFront(s[1..], Announced(s[1..][0]));
    }
  }

  /** Text followed by ASCII is valid only if the text is. */
  lemma CutMustBeValid(kept: seq<Byte>, marker: seq<Byte>)
    requires marker != [] && Ascii(marker)
    ensures Valid(kept + marker) <==> Valid(kept)
  {
    if Valid(kept + marker) {
      BoundaryIff(kept + marker, |kept|);
      assert (kept + marker)[..|kept|] == kept;
    } else if Valid(kept) {
      CutIsValid(kept, marker);
    }
  }

  /** Cutting valid text this way gives valid text exactly when it is not cut, is cut at a
      newline, is cut to nothing, or the last byte kept is ASCII: a lone lead byte may stay. */
  lemma McpCutIsValidIff(s: seq<Byte>, maxLen: nat)
    requires Valid(s) && maxLen < |s|
    ensures Valid(McpCut(s, maxLen)) <==>
            CutsAtNewline(s, maxLen) || WithoutTails(s, maxLen) == 0 || s[WithoutTails(s, maxLen) - 1] < 0x80
  {
    if CutsAtNewline(s, maxLen) {
      var pos := LastNewline(s, maxLen).value;
      BoundaryIff(s, pos);
      CutIsValid(s[..pos], NEWLINE_DOTS);
    } else {
      var i := WithoutTails(s, maxLen);
      CutMustBeValid(s[..i], DOTS);
      BoundaryIff(s, i);
      if i > 0 {
        NextByte(s, i - 1);
      } else {
        assert CharAtFront(s, Announced(s[0]));
      }
    }
  }

  /** A two-byte character whole within the bound loses its second byte. */
  lemma McpCutCanBreak()
    ensures Valid([0xc3, 0xa9, 0x61]) && !Valid(McpCut([0xc3, 0xa9, 0x61], 2))
  {
    var s: seq<Byte> := [0xc3, 0xa9, 0x61];
    assert s[2..] == [0x61] && CharAtFront([0x61], 1) && [0x61][1..] == [];
    assert CharAtFront(s, 2);
    assert LastNewline(s, 0).None? && LastNewline(s, 1).None? && LastNewline(s, 2).None?;
    assert WithoutTails(s, 1) == 1 && WithoutTails(s, 2) == 1;
    McpCutIsValidIff(s, 2);
  }
}

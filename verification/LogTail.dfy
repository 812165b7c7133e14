/** The last lines of a log file, read two ways: backward in fixed-size chunks by the web
    backend, and forward in full by the management API.  Files hold one byte per char. */
module LogTail {
  import opened Options
  import opened Sequences

  /** A level in brackets, as both readers search for it. */
  type Marker = m: string | |m| >= 2 && m[0] == '[' && m[|m| - 1] == ']' witness "[]"

  // ---------- splitting and trimming ----------

  /** split('\n'): always at least one piece. */
  function Split(s: string): (r: seq<string>)
    ensures |r| >= 1
  {
    if s == "" then [""]
    else
      var rest := Split(s[1..]);
      if s[0] == '\n' then [""] + rest else [[s[0]] + rest[0]] + rest[1..]
  }

  predicate IsSpace(c: char) {
    c == ' ' || 9 <= c as int <= 13
  }

  function TrimLeft(s: string): string {
    if s != "" && IsSpace(s[0]) then TrimLeft(s[1..]) else s
  }

  function TrimRight(s: string): string {
    if s != "" && IsSpace(s[|s| - 1]) then TrimRight(s[..|s| - 1]) else s
  }

  function Trim(s: string): string {
    TrimRight(TrimLeft(s))
  }

  /** Pieces trimmed, blank ones dropped. */
  function Kept(pieces: seq<string>): (r: seq<string>)
    ensures |r| <= |pieces|
  {
    if pieces == [] then []
    else KeptLine(pieces[0]) + Kept(pieces[1..])
  }

  /** The first piece of the file, which is never trimmed. */
  function FirstLine(piece: string): seq<string> {
    if piece != "" then [piece] else []
  }

  /** What the backward reader would list if it never stopped early. */
  function AllLines(file: string): seq<string> {
    FirstLine(Split(file)[0]) + Kept(Split(file)[1..])
  }

  function LastN<T>(s: seq<T>, n: nat): seq<T> {
    if |s| <= n then s else s[|s| - n..]
  }

  predicate OccursAt(line: string, marker: string, i: int) {
    0 <= i <= |line| - |marker| && line[i..i + |marker|] == marker
  }

  predicate Has(line: string, marker: string) {
    exists i :: 0 <= i <= |line| && OccursAt(line, marker, i)
  }

  function Matching(lines: seq<string>, marker: Option<Marker>): seq<string> {
    if marker.None? then lines
    else if lines == [] then []
    else (if Has(lines[0], marker.value) then [lines[0]] else []) + Matching(lines[1..], marker)
  }

  // ---------- facts about splitting ----------

  predicate NoNewline(s: string) {
    '\n' !in s
  }

  lemma {:induction false} SplitNoNewline(s: string)
    requires NoNewline(s)
    ensures Split(s) == [s]
  {
    if s != "" {
      assert s[0] in s;
      SplitNoNewline(s[1..]);
      assert [s[0]] + s[1..] == s;
    }
  }

  lemma {:induction false} SplitPiecesHaveNoNewline(s: string)
    ensures forall i :: 0 <= i < |Split(s)| ==> NoNewline(Split(s)[i])
  {
    if s == "" {
      assert NoNewline("");
    } else {
      var rest, r := Split(s[1..]), Split(s);
      SplitPiecesHaveNoNewline(s[1..]);
      forall i | 0 <= i < |r| ensures NoNewline(Split(s)[i]) {
        if s[0] == '\n' {
          assert i > 0 ==> r[i] == rest[i - 1];
        } else {
          assert NoNewline(rest[i]);
          assert r[i] == if i == 0 then [s[0]] + rest[0] else rest[i];
        }
      }
    }
  }

  /** The pieces put together again, a newline between any two. */
  function Unsplit(pieces: seq<string>): string {
    if pieces == [] then ""
    else if |pieces| == 1 then pieces[0]
    else pieces[0] + ("\n" + Unsplit(pieces[1..]))
  }

  /** Splitting loses nothing: with SplitPiecesHaveNoNewline, it cuts exactly at the newlines. */
  lemma {:induction false} UnsplitUndoesSplit(s: string)
    ensures Unsplit(Split(s)) == s
  {
    if s != "" {
      var rest := Split(s[1..]);
      UnsplitUndoesSplit(s[1..]);
      assert s == [s[0]] + s[1..];
      if s[0] == '\n' {
        assert ([""] + rest)[1..] == rest;
        assert "" + ("\n" + s[1..]) == s;
      } else {
        var all := [[s[0]] + rest[0]] + rest[1..];
        assert all[1..] == rest[1..];
        ConcatAssoc([s[0]], rest[0], "\n" + Unsplit(rest[1..]));
      }
    }
  }

  // ---------- facts about trimming ----------

  lemma {:induction false} TrimLeftIs(s: string) returns (a: string)
    ensures s == a + TrimLeft(s) && forall i :: 0 <= i < |a| ==> a[i] == ' ' || 9 <= a[i] as int <= 13
    ensures TrimLeft(s) != "" ==> !IsSpace(TrimLeft(s)[0])
  {
    if s != "" && IsSpace(s[0]) {
      var b := TrimLeftIs(s[1..]);
      a := [s[0]] + b;
      ConcatAssoc([s[0]], b, TrimLeft(s));
      assert s == [s[0]] + s[1..];
    } else {
      a := "";
    }
  }

  lemma {:induction false} TrimRightIs(s: string) returns (b: string)
    ensures s == TrimRight(s) + b && forall i :: 0 <= i < |b| ==> b[i] == ' ' || 9 <= b[i] as int <= 13
    ensures TrimRight(s) != "" ==> !IsSpace(TrimRight(s)[|TrimRight(s)| - 1])
    ensures TrimRight(s) <= s
  {
    if s != "" && IsSpace(s[|s| - 1]) {
      var a := TrimRightIs(s[..|s| - 1]);
      b := a + [s[|s| - 1]];
      ConcatAssoc(TrimRight(s), a, [s[|s| - 1]]);
      assert s == s[..|s| - 1] + [s[|s| - 1]];
    } else {
      b := "";
    }
  }

  predicate Blank(c: char) {
    c == ' ' || c == '\t' || c == '\n' || c == 11 as char || c == 12 as char || c == '\r'
  }

  /** Trimming takes blanks off both ends, and leaves a string without blanks at its ends. */
  lemma TrimIs(s: string) returns (a: string, b: string)
    ensures s == a + Trim(s) + b
    ensures (forall i :: 0 <= i < |a| ==> Blank(a[i])) && (forall i :: 0 <= i < |b| ==> Blank(b[i]))
    ensures Trim(s) != "" ==> !Blank(Trim(s)[0]) && !Blank(Trim(s)[|Trim(s)| - 1])
  {
    a := TrimLeftIs(s);
    b := TrimRightIs(TrimLeft(s));
    ConcatAssoc(a, Trim(s), b);
    assert Trim(s) != "" ==> Trim(s)[0] == TrimLeft(s)[0];
  }

  /** A piece is kept, trimmed, unless it is blank throughout. */
  lemma KeptOne(piece: string)
    ensures Kept([piece]) == if (forall i :: 0 <= i < |piece| ==> Blank(piece[i])) then [] else [Trim(piece)]
  {
    var a, b := TrimIs(piece);
    assert [piece][1..] == [];
    if Trim(piece) != "" {
      assert piece[|a|] == Trim(piece)[0];
    }
  }

  /** Splitting a concatenation: the last piece of one joins the first piece of the other. */
  function Joined(a: seq<string>, b: seq<string>): seq<string>
    requires |a| >= 1 && |b| >= 1
  {
    a[..|a| - 1] + [a[|a| - 1] + b[0]] + b[1..]
  }

  lemma {:induction false} SplitConcat(a: string, b: string)
    ensures Split(a + b) == Joined(Split(a), Split(b))
  {
    if a == "" {
      assert a + b == b;
      assert "" + Split(b)[0] == Split(b)[0];
    } else {
      SplitConcat(a[1..], b);
      assert (a + b)[1..] == a[1..] + b;
      var sa, sb := Split(a[1..]), Split(b);
      if a[0] == '\n' {
        assert Split(a) == [""] + sa;
        JoinedPrepend("", sa, sb);
      } else {
        JoinedExtend(a[0], sa, sb);
      }
    }
  }

  lemma JoinedPrepend(x: string, a: seq<string>, b: seq<string>)
    requires |a| >= 1 && |b| >= 1
    ensures Joined([x] + a, b) == [x] + Joined(a, b)
  {
    assert ([x] + a)[..|a|] == [x] + a[..|a| - 1];
  }

  lemma JoinedExtend(c: char, a: seq<string>, b: seq<string>)
    requires |a| >= 1 && |b| >= 1
    ensures Joined([[c] + a[0]] + a[1..], b) == [[c] + Joined(a, b)[0]] + Joined(a, b)[1..]
  {
    var a' := [[c] + a[0]] + a[1..];
    if |a| == 1 {
      assert [c] + (a[0] + b[0]) == ([c] + a[0]) + b[0];
    } else {
      assert a'[..|a| - 1] == [[c] + a[0]] + a[..|a| - 1][1..];
    }
  }

  lemma JoinedRest(a: seq<string>, x: string, rest: seq<string>)
    requires |a| >= 1
    ensures Joined(a, [x] + rest) == Joined(a, [x]) + rest
  {
  }

  /** One step of the backward scan: a chunk put in front of the pending first piece. */
  lemma ChunkStep(chunk: string, tail: string, leftover: string, rest: seq<string>)
    requires Split(tail) == [leftover] + rest
    ensures Split(chunk + tail) == Split(chunk + leftover) + rest
  {
    SplitPiecesHaveNoNewline(tail);
    assert Split(tail)[0] == leftover;
    SplitNoNewline(leftover);
    SplitConcat(chunk, tail);
    SplitConcat(chunk, leftover);
    JoinedRest(Split(chunk), leftover, rest);
  }

  lemma SplitFrom(file: string, from: nat, to: nat, leftover: string, rest: seq<string>)
    requires from <= to <= |file| && Split(file[to..]) == [leftover] + rest
    ensures Split(file[from..]) == Split(file[from..to] + leftover) + rest
  {
    ChunkStep(file[from..to], file[to..], leftover, rest);
    assert file[from..] == file[from..to] + file[to..];
  }

  lemma ScanStep(file: string, from: nat, to: nat, leftover: string, rest: seq<string>)
    requires from <= to <= |file| && Split(file[to..]) == [leftover] + rest
    ensures var parts := Split(file[from..to] + leftover);
            && Split(file[from..]) == [parts[0]] + (parts[1..] + rest)
            && Kept(parts[1..] + rest) == Kept(parts[1..]) + Kept(rest)
  {
    var parts := Split(file[from..to] + leftover);
    SplitFrom(file, from, to, leftover, rest);
    assert parts + rest == [parts[0]] + (parts[1..] + rest);
    KeptAppend(parts[1..], rest);
  }

  function KeptLine(piece: string): seq<string> {
    if Trim(piece) != "" then [Trim(piece)] else []
  }

  lemma KeptCons(x: string, s: seq<string>)
    ensures Kept([x] + s) == KeptLine(x) + Kept(s)
  {
    assert ([x] + s)[1..] == s;
  }

  lemma {:induction false} KeptAppend(a: seq<string>, b: seq<string>)
    ensures Kept(a + b) == Kept(a) + Kept(b)
    decreases |a|
  {
    if a == [] {
      assert a + b == b;
    } else {
      var x, rest := a[0], a[1..];
      KeptAppend(rest, b);
      assert a == [x] + rest;
      ConcatAssoc([x], rest, b);
      KeptCons(x, rest);
      KeptCons(x, rest + b);
      ConcatAssoc(KeptLine(x), Kept(rest), Kept(b));
    }
  }

  lemma LastNOfConcat<T>(a: seq<T>, b: seq<T>, n: nat)
    requires |b| >= n
    ensures LastN(a + b, n) == LastN(b, n)
  {
  }

  // ---------- finding a marker in a line ----------

  lemma {:induction false} HasAfterTrimLeft(s: string, m: Marker)
    requires Has(s, m)
    ensures Has(TrimLeft(s), m)
    decreases |s|
  {
    var i :| 0 <= i <= |s| && OccursAt(s, m, i);
    if s != "" && IsSpace(s[0]) {
      assert s[i..i + |m|][0] == s[i];
      assert OccursAt(s[1..], m, i - 1);
      HasAfterTrimLeft(s[1..], m);
    }
  }

  lemma {:induction false} HasAfterTrimRight(s: string, m: Marker)
    requires Has(s, m)
    ensures Has(TrimRight(s), m)
    decreases |s|
  {
    var i :| 0 <= i <= |s| && OccursAt(s, m, i);
    if s != "" && IsSpace(s[|s| - 1]) {
      assert s[i..i + |m|][|m| - 1] == s[i + |m| - 1];
      assert OccursAt(s[..|s| - 1], m, i);
      HasAfterTrimRight(s[..|s| - 1], m);
    }
  }

  /** A marker survives trimming, because it begins and ends with a bracket. */
  lemma HasAfterTrim(s: string, m: Marker)
    requires Has(s, m)
    ensures Has(Trim(s), m) && Trim(s) != ""
  {
    HasAfterTrimLeft(s, m);
    HasAfterTrimRight(TrimLeft(s), m);
  }

  lemma HasAfterPrefix(x: string, s: string, m: Marker)
    requires Has(s, m)
    ensures Has(x + s, m)
  {
    var i :| 0 <= i <= |s| && OccursAt(s, m, i);
    assert (x + s)[|x| + i..|x| + i + |m|] == s[i..i + |m|];
    assert OccursAt(x + s, m, |x| + i);
  }

  lemma OneMatch(line: string, m: Marker)
    ensures Matching([line], Some(m)) == if Has(line, m) then [line] else []
  {
    assert [line][1..] == [];
  }

  /** The lines of a file before a split point, given the pieces in front of it and the piece
      that straddles it. */
  function LinesBefore(sf: seq<string>, leftover: string): seq<string>
    requires |sf| >= 1
  {
    if |sf| == 1 then FirstLine(sf[0] + leftover)
    else FirstLine(sf[0]) + Kept(sf[1..|sf| - 1]) + KeptLine(sf[|sf| - 1] + leftover)
  }

  lemma JoinedLines(sf: seq<string>, leftover: string, rest: seq<string>)
    requires |sf| >= 1
    ensures var pieces := Joined(sf, [leftover] + rest);
            FirstLine(pieces[0]) + Kept(pieces[1..]) == LinesBefore(sf, leftover) + Kept(rest)
  {
    var pieces := Joined(sf, [leftover] + rest);
    if |sf| == 1 {
      assert pieces[1..] == rest;
    } else {
      var inner, line := sf[1..|sf| - 1], sf[|sf| - 1] + leftover;
      assert pieces[0] == sf[0] && pieces[1..] == inner + ([line] + rest);
      KeptAppend(inner, [line] + rest);
      KeptCons(line, rest);
      ConcatAssoc(FirstLine(sf[0]), Kept(inner), KeptLine(line) + Kept(rest));
      ConcatAssoc(FirstLine(sf[0]) + Kept(inner), KeptLine(line), Kept(rest));
    }
  }

  lemma FragmentMatches(sf: seq<string>, leftover: string, m: Marker)
    requires |sf| >= 1 && Has(leftover, m)
    ensures Matching(LinesBefore(sf, leftover), Some(m)) != []
  {
    LineMatches(sf[|sf| - 1], leftover, m);
    if |sf| > 1 {
      MatchingAppend(FirstLine(sf[0]) + Kept(sf[1..|sf| - 1]), KeptLine(sf[|sf| - 1] + leftover), Some(m));
    }
  }

  /** What has been listed so far is always a suffix of the full listing, and a match in the
      pending fragment is a match in the line it belongs to. */
  lemma ListedIsSuffix(file: string, position: nat, leftover: string, rest: seq<string>, m: Marker)
    returns (before: seq<string>)
    requires position <= |file| && Split(file[position..]) == [leftover] + rest
    ensures AllLines(file) == before + Kept(rest)
    ensures Has(leftover, m) ==> Matching(before, Some(m)) != []
  {
    var front := Split(file[..position]);
    assert file == file[..position] + file[position..];
    SplitConcat(file[..position], file[position..]);
    JoinedLines(front, leftover, rest);
    before := LinesBefore(front, leftover);
    if Has(leftover, m) {
      FragmentMatches(front, leftover, m);
    }
  }

  /** A fragment that matches makes its whole line match, trimmed or not. */
  lemma LineMatches(x: string, leftover: string, m: Marker)
    ensures Has(leftover, m) ==> Matching(FirstLine(x + leftover), Some(m)) != []
    ensures Has(leftover, m) ==> Matching(KeptLine(x + leftover), Some(m)) != []
  {
    if Has(leftover, m) {
      HasAfterPrefix(x, leftover, m);
      HasAfterTrim(x + leftover, m);
      OneMatch(x + leftover, m);
      OneMatch(Trim(x + leftover), m);
    }
  }

  /** However far back the scan went, the last lines listed are the last lines of the file. */
  lemma {:induction false} TailIsExact(file: string, position: nat, leftover: string, rest: seq<string>, limit: nat)
    requires position <= |file| && Split(file[position..]) == [leftover] + rest
    requires position == 0 || |Kept(rest)| >= 2 * limit
    ensures position == 0 ==> FirstLine(leftover) + Kept(rest) == AllLines(file)
    ensures LastN(FirstLine(leftover) + Kept(rest), limit) == LastN(AllLines(file), limit)
    ensures |AllLines(file)| >= |Kept(rest)|
  {
    var before := ListedIsSuffix(file, position, leftover, rest, "[]");
    if position == 0 {
      assert file[position..] == file;
    } else {
      LastNOfConcat(before, Kept(rest), limit);
      LastNOfConcat(FirstLine(leftover), Kept(rest), limit);
    }
  }

  lemma {:induction false} MatchingAppend(a: seq<string>, b: seq<string>, marker: Option<Marker>)
    ensures Matching(a + b, marker) == Matching(a, marker) + Matching(b, marker)
    decreases |a|
  {
    if a == [] {
      assert a + b == b;
    } else if marker.Some? {
      MatchingAppend(a[1..], b, marker);
      assert (a + b)[0] == a[0] && (a + b)[1..] == a[1..] + b;
      ConcatAssoc(if Has(a[0], marker.value) then [a[0]] else [], Matching(a[1..], marker), Matching(b, marker));
    }
  }

  // ---------- when a filtered tail is exact ----------

  /** The last 2 * limit lines hold as many matches as were asked for, or all there are. */
  predicate EnoughInView(file: string, m: Marker, limit: nat) {
    var seen := Matching(LastN(AllLines(file), 2 * limit), Some(m));
    |seen| >= limit || |seen| == |Matching(AllLines(file), Some(m))|
  }

  lemma LastNSplits<T>(s: seq<T>, n: nat) returns (front: seq<T>)
    ensures s == front + LastN(s, n)
  {
    front := s[..|s| - |LastN(s, n)|];
  }

  lemma FragmentDoesNotMatch(leftover: string, before: seq<string>, m: Marker)
    requires Has(leftover, m) ==> Matching(before, Some(m)) != []
    requires Matching(before, Some(m)) == []
    ensures Matching(FirstLine(leftover), Some(m)) == []
  {
    OneMatch(leftover, m);
  }

  /** The same for lists: the lines in front, and the lines listed after the fragment. */
  lemma EnoughListed(leftover: string, before: seq<string>, listed: seq<string>, m: Marker, limit: nat)
    requires Has(leftover, m) ==> Matching(before, Some(m)) != []
    requires var seen := Matching(LastN(listed, 2 * limit), Some(m));
             |seen| >= limit || |seen| == |Matching(before, Some(m)) + Matching(listed, Some(m))|
    ensures LastN(Matching(FirstLine(leftover) + listed, Some(m)), limit) ==
            LastN(Matching(before, Some(m)) + Matching(listed, Some(m)), limit)
  {
    var front := LastNSplits(listed, 2 * limit);
    MatchingAppend(front, LastN(listed, 2 * limit), Some(m));
    MatchingAppend(FirstLine(leftover), listed, Some(m));
    if |Matching(listed, Some(m))| >= limit {
      LastNOfConcat(Matching(before, Some(m)), Matching(listed, Some(m)), limit);
      LastNOfConcat(Matching(FirstLine(leftover), Some(m)), Matching(listed, Some(m)), limit);
    } else {
      assert Matching(before, Some(m)) == [];
      FragmentDoesNotMatch(leftover, before, m);
    }
  }

  lemma EnoughBehind(file: string, before: seq<string>, listed: seq<string>, m: Marker, limit: nat)
    requires AllLines(file) == before + listed && |listed| >= 2 * limit && EnoughInView(file, m, limit)
    ensures Matching(AllLines(file), Some(m)) == Matching(before, Some(m)) + Matching(listed, Some(m))
    ensures var seen := Matching(LastN(listed, 2 * limit), Some(m));
            |seen| >= limit || |seen| == |Matching(before, Some(m)) + Matching(listed, Some(m))|
  {
    LastNOfConcat(before, listed, 2 * limit);
    MatchingAppend(before, listed, Some(m));
  }

  /** With enough in view the filtered tail is exact wherever the scan stops. */
  lemma EnoughIsExact(file: string, position: nat, leftover: string, rest: seq<string>, m: Marker, limit: nat)
    requires position <= |file| && Split(file[position..]) == [leftover] + rest
    requires position == 0 || |Kept(rest)| >= 2 * limit
    requires EnoughInView(file, m, limit)
    ensures LastN(Matching(FirstLine(leftover) + Kept(rest), Some(m)), limit)
            == LastN(Matching(AllLines(file), Some(m)), limit)
  {
    var before := ListedIsSuffix(file, position, leftover, rest, m);
    if position == 0 {
      TailIsExact(file, position, leftover, rest, limit);
    } else {
      EnoughBehind(file, before, Kept(rest), m, limit);
      EnoughListed(leftover, before, Kept(rest), m, limit);
    }
  }

  // ---------- the backward reader ----------

  /** Adds the pieces of one chunk, last first, in front of the lines already listed. */
  method ListPieces(pieces: seq<string>, lines: seq<string>) returns (more: seq<string>)
    ensures more == Kept(pieces) + lines
  {
    more := lines;
    var i := |pieces|;
    while i > 0
      invariant 0 <= i <= |pieces|
      invariant more == Kept(pieces[i..]) + lines
    {
      i := i - 1;
      assert pieces[i..][1..] == pieces[i + 1..];
      ConcatAssoc(KeptLine(pieces[i]), Kept(pieces[i + 1..]), lines);
      var line := Trim(pieces[i]);
      if line != "" {
        more := [line] + more;
      } else {
        assert [] + more == more;
      }
    }
    assert pieces[0..] == pieces;
  }

  /** What the backward scan lists from a given point on: chunks until the file begins or
      2 * limit lines are listed, then the pending piece as it is. */
  function Scan(file: string, position: nat, leftover: string, lines: seq<string>, limit: nat, chunkSize: nat)
    : seq<string>
    requires position <= |file| && chunkSize >= 1
    decreases position
  {
    if position == 0 || |lines| >= 2 * limit then FirstLine(leftover) + lines
    else
      var from := if chunkSize < position then position - chunkSize else 0;
      var parts := Split(file[from..position] + leftover);
      Scan(file, from, parts[0], Kept(parts[1..]) + lines, limit, chunkSize)
  }

  function Listed(file: string, limit: nat, chunkSize: nat): seq<string>
    requires chunkSize >= 1
  {
    Scan(file, |file|, "", [], limit, chunkSize)
  }

  /** What the reader returns. */
  function ReadTail(file: string, marker: Option<Marker>, limit: nat, chunkSize: nat): seq<string>
    requires chunkSize >= 1
  {
    LastN(Matching(Listed(file, limit, chunkSize), marker), limit)
  }

  /** The filtered tail is the last matching lines of the file. */
  predicate Exact(file: string, m: Marker, limit: nat, chunkSize: nat)
    requires chunkSize >= 1
  {
    ReadTail(file, Some(m), limit, chunkSize) == LastN(Matching(AllLines(file), Some(m)), limit)
  }

  /** The lines listed of a file by a scan that has reached q, all but the pending piece. */
  function Whole(file: string, q: nat): seq<string>
    requires q <= |file|
  {
    Kept(Split(file[q..])[1..])
  }

  /** Where the scan stops: the first chunk edge from the end with 2 * limit whole lines behind
      it, or the beginning of the file. */
  function Stop(file: string, position: nat, limit: nat, chunkSize: nat): (q: nat)
    requires position <= |file| && chunkSize >= 1
    ensures q <= position && (q == 0 || |Whole(file, q)| >= 2 * limit)
    decreases position
  {
    if position == 0 || |Whole(file, position)| >= 2 * limit then position
    else Stop(file, if chunkSize < position then position - chunkSize else 0, limit, chunkSize)
  }

  /** The scan lists what stands at its stopping point. */
  lemma {:induction false} ScanStops(
    file: string, position: nat, leftover: string, rest: seq<string>, limit: nat, chunkSize: nat)
    returns (p: nat, l: string, r: seq<string>)
    requires position <= |file| && chunkSize >= 1 && Split(file[position..]) == [leftover] + rest
    ensures p == Stop(file, position, limit, chunkSize)
    ensures Split(file[p..]) == [l] + r && Whole(file, p) == Kept(r)
    ensures Scan(file, position, leftover, Kept(rest), limit, chunkSize) == FirstLine(l) + Kept(r)
    decreases position
  {
    assert Split(file[position..])[1..] == rest;
    assert Whole(file, position) == Kept(rest);
    if position == 0 || |Kept(rest)| >= 2 * limit {
      p, l, r := position, leftover, rest;
      ScanEnds(file, position, leftover, Kept(rest), limit, chunkSize);
    } else {
      var from := if chunkSize < position then position - chunkSize else 0;
      var parts := Split(file[from..position] + leftover);
      ScanChunk(file, position, leftover, Kept(rest), limit, chunkSize, from, parts);
      ScanStep(file, from, position, leftover, rest);
      p, l, r := ScanStops(file, from, parts[0], parts[1..] + rest, limit, chunkSize);
    }
  }

  /** Without a level the tail is exact for every file, limit and chunk size. */
  lemma PlainTailIsExact(file: string, limit: nat, chunkSize: nat)
    requires chunkSize >= 1
    ensures ReadTail(file, None, limit, chunkSize) == LastN(AllLines(file), limit)
  {
    var p, l, r := ScanStops(file, |file|, "", [], limit, chunkSize);
    TailIsExact(file, p, l, r, limit);
  }

  /** With a level it is exact, whatever the chunk size, when enough is in view. */
  lemma LevelTailIsExact(file: string, m: Marker, limit: nat, chunkSize: nat)
    requires chunkSize >= 1 && EnoughInView(file, m, limit)
    ensures Exact(file, m, limit, chunkSize)
  {
    var p, l, r := ScanStops(file, |file|, "", [], limit, chunkSize);
    EnoughIsExact(file, p, l, r, m, limit);
  }

  /** A file of fewer than 2 * limit lines is listed whole. */
  lemma ShortFileIsListed(file: string, limit: nat, chunkSize: nat)
    requires chunkSize >= 1 && |AllLines(file)| < 2 * limit
    ensures Listed(file, limit, chunkSize) == AllLines(file)
  {
    var p, l, r := ScanStops(file, |file|, "", [], limit, chunkSize);
    TailIsExact(file, p, l, r, limit);
  }

  // ---------- when one chunk size is exact ----------

  /** The piece that straddles q, and the lines of the file up to the one it ends. */
  function Fragment(file: string, q: nat): string
    requires q <= |file|
  {
    Split(file[q..])[0]
  }

  function Front(file: string, q: nat): seq<string>
    requires q <= |file|
  {
    LinesBefore(Split(file[..q]), Fragment(file, q))
  }

  lemma AllLinesAt(file: string, q: nat)
    requires q <= |file|
    ensures AllLines(file) == Front(file, q) + Whole(file, q)
  {
    var tail := Split(file[q..]);
    assert tail == [tail[0]] + tail[1..];
    assert file == file[..q] + file[q..];
    SplitConcat(file[..q], file[q..]);
    JoinedLines(Split(file[..q]), tail[0], tail[1..]);
  }

  lemma LastNOfShort<T>(a: seq<T>, b: seq<T>, n: nat)
    requires |b| < n
    ensures LastN(a + b, n) == LastN(a, n - |b|) + b
  {
  }

  lemma SameTailIff<T>(a: seq<T>, b: seq<T>, c: seq<T>, n: nat)
    ensures LastN(a + c, n) == LastN(b + c, n) <==> |c| >= n || LastN(a, n - |c|) == LastN(b, n - |c|)
  {
    if |c| >= n {
      LastNOfConcat(a, c, n);
      LastNOfConcat(b, c, n);
    } else {
      var x, y := LastN(a, n - |c|), LastN(b, n - |c|);
      LastNOfShort(a, c, n);
      LastNOfShort(b, c, n);
      if x + c == y + c {
        assert |x| == |y| && x == (x + c)[..|x|] && y == (y + c)[..|y|];
      }
    }
  }

  /** Stopped at q, the scan has enough matches in whole lines; or what the fragment adds to them
      is what the lines in front add. */
  predicate ExactAt(file: string, m: Marker, limit: nat, q: nat)
    requires q <= |file|
  {
    var got := |Matching(Whole(file, q), Some(m))|;
    got >= limit ||
    Matching(FirstLine(Fragment(file, q)), Some(m)) == LastN(Matching(Front(file, q), Some(m)), limit - got)
  }

  /** A reader of a given chunk size is exact if and only if it is so where it stops. */
  lemma {:induction false} ExactIffAtStop(file: string, m: Marker, limit: nat, chunkSize: nat)
    requires chunkSize >= 1
    ensures Exact(file, m, limit, chunkSize) <==> ExactAt(file, m, limit, Stop(file, |file|, limit, chunkSize))
  {
    var q, l, r := ScanStops(file, |file|, "", [], limit, chunkSize);
    assert l == Fragment(file, q);
    AllLinesAt(file, q);
    var first, front, seen :=
      Matching(FirstLine(l), Some(m)), Matching(Front(file, q), Some(m)), Matching(Whole(file, q), Some(m));
    MatchingAppend(FirstLine(l), Whole(file, q), Some(m));
    MatchingAppend(Front(file, q), Whole(file, q), Some(m));
    OneMatch(l, m);
    SameTailIff(first, front, seen, limit);
  }

  /** More matches listed than asked for: the oldest line listed, which may be a fragment, is
      not among the last ones, and these are the last matches of the whole file. */
  lemma ManyMatchesAreExact(file: string, m: Marker, limit: nat, chunkSize: nat)
    requires chunkSize >= 1 && |Matching(Listed(file, limit, chunkSize), Some(m))| > limit
    ensures Exact(file, m, limit, chunkSize)
  {
    var q, l, r := ScanStops(file, |file|, "", [], limit, chunkSize);
    MatchingAppend(FirstLine(l), Kept(r), Some(m));
    OneMatch(l, m);
    ExactIffAtStop(file, m, limit, chunkSize);
  }

  /** A file of one chunk is listed whole, however many lines it has. */
  lemma OneChunkIsListed(file: string, limit: nat, chunkSize: nat)
    requires chunkSize >= 1 && limit >= 1 && |file| <= chunkSize
    ensures Listed(file, limit, chunkSize) == AllLines(file)
  {
    var q, l, r := ScanStops(file, |file|, "", [], limit, chunkSize);
    TailIsExact(file, q, l, r, limit);
    if file != "" {
      assert Split(file[|file|..])[1..] == [] && Whole(file, |file|) == [];
      assert Stop(file, |file|, limit, chunkSize) == Stop(file, 0, limit, chunkSize);
    }
  }

  lemma ScanChunk(file: string, position: nat, leftover: string, lines: seq<string>, limit: nat, chunkSize: nat,
                  from: nat, parts: seq<string>)
    requires 0 < position <= |file| && chunkSize >= 1 && |lines| < 2 * limit
    requires from == (if chunkSize < position then position - chunkSize else 0)
    requires parts == Split(file[from..position] + leftover)
    ensures Scan(file, position, leftover, lines, limit, chunkSize) ==
            Scan(file, from, parts[0], Kept(parts[1..]) + lines, limit, chunkSize)
  {
  }

  lemma ScanEnds(file: string, position: nat, leftover: string, lines: seq<string>, limit: nat, chunkSize: nat)
    requires position <= |file| && chunkSize >= 1 && (position == 0 || |lines| >= 2 * limit)
    ensures Scan(file, position, leftover, lines, limit, chunkSize) ==
            if leftover != "" then [leftover] + lines else lines
  {
    assert [] + lines == lines;
  }

  /** The backward scan, chunk by chunk. */
  method ScanBackward(file: string, limit: nat, chunkSize: nat) returns (lines: seq<string>)
    requires chunkSize >= 1
    ensures lines == Listed(file, limit, chunkSize)
  {
    var position := |file|;
    var leftover := "";
    var scanned := 0;
    lines := [];
    while position > 0 && scanned < limit * 2
      invariant 0 <= position <= |file| && scanned == |lines|
      invariant Scan(file, position, leftover, lines, limit, chunkSize) == Listed(file, limit, chunkSize)
    {
      var from := if chunkSize < position then position - chunkSize else 0;
      var parts := Split(file[from..position] + leftover);
      ScanChunk(file, position, leftover, lines, limit, chunkSize, from, parts);
      position := from;
      leftover := parts[0];
      var more := ListPieces(parts[1..], lines);
      scanned := scanned + (|more| - |lines|);
      lines := more;
    }
    ScanEnds(file, position, leftover, lines, limit, chunkSize);
    if leftover != "" {
      lines := [leftover] + lines;
    }
  }

  /** `marker` is the level in brackets, None when no level was asked for. */
  method ReadLogTail(file: string, marker: Option<Marker>, limit: nat, chunkSize: nat)
    returns (result: seq<string>, total: nat)
    requires limit >= 1 && chunkSize >= 1
    ensures result == ReadTail(file, marker, limit, chunkSize)
    ensures total == |Matching(Listed(file, limit, chunkSize), marker)|
    ensures marker.None? || EnoughInView(file, marker.value, limit) ==>
              result == LastN(Matching(AllLines(file), marker), limit)
    ensures marker.Some? ==>
              (result == LastN(Matching(AllLines(file), marker), limit) <==>
               ExactAt(file, marker.value, limit, Stop(file, |file|, limit, chunkSize)))
    ensures |file| <= chunkSize ==>
              total == |Matching(AllLines(file), marker)| && result == LastN(Matching(AllLines(file), marker), limit)
    ensures total > limit ==> result == LastN(Matching(AllLines(file), marker), limit)
    ensures |AllLines(file)| < 2 * limit ==> total == |Matching(AllLines(file), marker)|
    ensures |AllLines(file)| < 2 * limit ==> result == LastN(Matching(AllLines(file), marker), limit)
  {
    var lines := ScanBackward(file, limit, chunkSize);
    var filtered := Matching(lines, marker);
    result, total := LastN(filtered, limit), |filtered|;
    if marker.None? {
      PlainTailIsExact(file, limit, chunkSize);
    } else if EnoughInView(file, marker.value, limit) {
      LevelTailIsExact(file, marker.value, limit, chunkSize);
    }
    if marker.Some? && total > limit {
      ManyMatchesAreExact(file, marker.value, limit, chunkSize);
    }
    if marker.Some? {
      ExactIffAtStop(file, marker.value, limit, chunkSize);
    }
    if |file| <= chunkSize {
      OneChunkIsListed(file, limit, chunkSize);
    }
    if |AllLines(file)| < 2 * limit {
      ShortFileIsListed(file, limit, chunkSize);
    }
  }

  // ---------- the forward reader ----------

  /** getline: the pieces of the file, without an empty last one. */
  function GetLines(file: string): seq<string> {
    var pieces := Split(file);
    if pieces[|pieces| - 1] == "" then pieces[..|pieces| - 1] else pieces
  }

  lemma MatchingStep(lines: seq<string>, i: nat, marker: Option<Marker>)
    requires i < |lines|
    ensures Matching(lines[i..], marker)
            == if marker.None? || Has(lines[i], marker.value) then [lines[i]] + Matching(lines[i + 1..], marker)
               else Matching(lines[i + 1..], marker)
  {
    assert lines[i..][1..] == lines[i + 1..];
  }

  method CollectMatching(input: seq<string>, marker: Option<Marker>) returns (all: seq<string>)
    ensures all == Matching(input, marker)
  {
    all := [];
    var i := 0;
    assert input[0..] == input;
    while i < |input|
      invariant 0 <= i <= |input|
      invariant all + Matching(input[i..], marker) == Matching(input, marker)
    {
      MatchingStep(input, i, marker);
      if marker.None? || Has(input[i], marker.value) {
        ConcatAssoc(all, [input[i]], Matching(input[i + 1..], marker));
        all := all + [input[i]];
      }
      i := i + 1;
    }
    assert all + [] == all;
  }

  method ReadLogLines(file: string, marker: Option<Marker>, limit: int) returns (lines: seq<string>)
    ensures lines == LastN(Matching(GetLines(file), marker), if limit < 0 then 0 else limit)
  {
    var all := CollectMatching(GetLines(file), marker);
    var start := |all| - limit;
    if start < 0 {
      start := 0;
    }
    lines := if start <= |all| then all[start..] else [];
  }

  // ---------- the two readers agree on clean logs ----------

  predicate Clean(line: string) {
    line != "" && Trim(line) == line
  }

  lemma {:induction false} KeptOfClean(pieces: seq<string>)
    requires forall i :: 0 <= i < |pieces| ==> Clean(pieces[i])
    ensures Kept(pieces) == pieces
  {
    if pieces != [] {
      KeptOfClean(pieces[1..]);
      assert Clean(pieces[0]);
    }
  }

  lemma {:induction false} KeptUnchangedMeansClean(pieces: seq<string>)
    requires Kept(pieces) == pieces
    ensures forall i :: 0 <= i < |pieces| ==> Clean(pieces[i])
  {
    if pieces != [] {
      var rest := pieces[1..];
      assert |Kept(rest)| <= |rest|;
      assert Kept(pieces) == [Trim(pieces[0])] + Kept(rest);
      assert Kept(pieces)[1..] == Kept(rest);
      KeptUnchangedMeansClean(rest);
    }
  }

  /** The pieces of a file after the first, as the two readers list them. */
  lemma ListingShapes(file: string)
    ensures GetLines(file) == [] ==> AllLines(file) == []
    ensures GetLines(file) != [] ==>
              GetLines(file)[0] == Split(file)[0] && Kept(Split(file)[1..]) == Kept(GetLines(file)[1..])
  {
    var pieces, lines := Split(file), GetLines(file);
    if lines == [] {
      assert pieces == [""];
    } else if |lines| < |pieces| {
      assert pieces[1..] == lines[1..] + [""];
      KeptAppend(lines[1..], [""]);
      assert Kept([""]) == KeptLine("") + Kept([""][1..]);
    }
  }

  /** Lines both readers list alike: none empty, and no surrounding whitespace after the first. */
  ghost predicate ListedAlike(lines: seq<string>) {
    lines != [] ==> lines[0] != "" && forall i :: 0 <= i < |lines[1..]| ==> Clean(lines[1..][i])
  }

  /** The readers list the same lines of a file exactly when its lines are such. */
  lemma ReadersAgreeIff(file: string)
    ensures AllLines(file) == GetLines(file) <==> ListedAlike(GetLines(file))
  {
    var lines := GetLines(file);
    ListingShapes(file);
    if lines != [] {
      var rest := lines[1..];
      assert lines == [lines[0]] + rest;
      if ListedAlike(lines) {
        KeptOfClean(rest);
      }
      if AllLines(file) == lines {
        assert |Kept(rest)| <= |rest|;
        assert AllLines(file)[1..] == Kept(rest);
        KeptUnchangedMeansClean(rest);
      }
    }
  }
}

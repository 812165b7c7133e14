/** When the level-filtered log tail is exact: the condition of LogTail is also necessary, and
    for every chunk size and limit some file misses it. */
module LevelTail {
  import opened Options
  import opened Sequences
  import opened LogTail

  // ---------- one byte at a time ----------

  lemma FirstPieceHasNoNewline(s: string, leftover: string, rest: seq<string>)
    requires Split(s) == [leftover] + rest
    ensures Split(leftover) == [leftover]
  {
    SplitPiecesHaveNoNewline(s);
    assert NoNewline(Split(s)[0]);
    SplitNoNewline(leftover);
  }

  lemma OneByteSplits(c: char, leftover: string)
    requires Split(leftover) == [leftover]
    ensures Split([c] + leftover) == if c == '\n' then ["", leftover] else [[c] + leftover]
  {
    assert ([c] + leftover)[1..] == leftover;
  }

  lemma OneLineKept(line: string)
    ensures |Kept([line])| <= 1
  {
  }

  lemma StoppedFull(file: string, position: nat, rest: seq<string>, limit: nat)
    requires position <= |file| && Split(file[position..]) == [""] + rest && |Kept(rest)| == 2 * limit
    ensures FirstLine("") + Kept(rest) == LastN(AllLines(file), 2 * limit)
  {
    var before := ListedIsSuffix(file, position, "", rest, "[]");
    LastNOfConcat(before, Kept(rest), 2 * limit);
  }

  /** A scan in chunks of one byte stops with exactly the last 2 * limit lines. */
  lemma {:induction false} OneByteScan(file: string, position: nat, leftover: string, rest: seq<string>, limit: nat)
    requires position <= |file| && limit >= 1 && Split(file[position..]) == [leftover] + rest
    requires |Kept(rest)| < 2 * limit || (|Kept(rest)| == 2 * limit && leftover == "")
    ensures Scan(file, position, leftover, Kept(rest), limit, 1) == LastN(AllLines(file), 2 * limit)
    decreases position
  {
    if |Kept(rest)| == 2 * limit {
      StoppedFull(file, position, rest, limit);
    } else if position == 0 {
      TailIsExact(file, 0, leftover, rest, limit);
    } else {
      var from, c := position - 1, file[position - 1];
      var parts := Split(file[from..position] + leftover);
      assert file[from..position] == [c];
      FirstPieceHasNoNewline(file[position..], leftover, rest);
      OneByteSplits(c, leftover);
      ScanStep(file, from, position, leftover, rest);
      OneLineKept(leftover);
      assert parts[1..] == if c == '\n' then [leftover] else [];
      OneByteScan(file, from, parts[0], parts[1..] + rest, limit);
    }
  }

  lemma OneByteTail(file: string, m: Marker, limit: nat)
    requires limit >= 1
    ensures ReadTail(file, Some(m), limit, 1) == LastN(Matching(LastN(AllLines(file), 2 * limit), Some(m)), limit)
  {
    assert file[|file|..] == "";
    OneByteScan(file, |file|, "", [], limit);
  }

  lemma NotEnoughIsInexact(file: string, m: Marker, limit: nat)
    requires limit >= 1 && !EnoughInView(file, m, limit)
    ensures !Exact(file, m, limit, 1)
  {
    OneByteTail(file, m, limit);
    var front := LastNSplits(AllLines(file), 2 * limit);
    MatchingAppend(front, LastN(AllLines(file), 2 * limit), Some(m));
  }

  /** The filtered tail is exact for every chunk size if and only if the last 2 * limit lines of
      the file hold as many matches as were asked for, or all there are. */
  lemma ExactIffEnoughInView(file: string, m: Marker, limit: nat)
    requires limit >= 1
    ensures (forall chunkSize: nat :: chunkSize >= 1 ==> Exact(file, m, limit, chunkSize))
            <==> EnoughInView(file, m, limit)
  {
    if EnoughInView(file, m, limit) {
      forall chunkSize: nat | chunkSize >= 1 ensures Exact(file, m, limit, chunkSize) {
        LevelTailIsExact(file, m, limit, chunkSize);
      }
    } else {
      NotEnoughIsInexact(file, m, limit);
    }
  }

  // ---------- a file that misses, for every chunk size ----------

  function Newlines(n: nat): string {
    if n == 0 then "" else "\n" + Newlines(n - 1)
  }

  /** n lines "a". */
  function Body(n: nat): string {
    if n == 0 then "" else "a\n" + Body(n - 1)
  }

  function Copies(line: string, n: nat): (r: seq<string>)
    ensures |r| == n
  {
    seq(n, _ => line)
  }

  /** One matching line, one chunk of empty lines, and 2 * limit lines that do not match. */
  function LongLog(limit: nat, chunkSize: nat): string {
    "[E]" + (Newlines(chunkSize) + Body(2 * limit))
  }

  lemma SplitCons(c: char, s: string)
    ensures Split([c] + s) == if c == '\n' then [""] + Split(s) else [[c] + Split(s)[0]] + Split(s)[1..]
  {
    assert ([c] + s)[1..] == s;
  }

  lemma CopiesHead(line: string, n: nat)
    requires n > 0
    ensures Copies(line, n) == [line] + Copies(line, n - 1)
  {
  }

  lemma {:induction false} SplitBody(n: nat)
    ensures Split(Body(n)) == Copies("a", n) + [""]
  {
    if n > 0 {
      var rest := Body(n - 1);
      SplitBody(n - 1);
      SplitCons('\n', rest);
      SplitCons('a', ['\n'] + rest);
      assert Body(n) == ['a'] + (['\n'] + rest);
      assert ['a'] + "" == "a";
      CopiesHead("a", n);
      ConcatAssoc(["a"], Copies("a", n - 1), [""]);
    }
  }

  lemma {:induction false} SplitGap(k: nat, n: nat)
    ensures Split(Newlines(k) + Body(n)) == Copies("", k) + (Copies("a", n) + [""])
  {
    if k == 0 {
      SplitBody(n);
      assert Newlines(0) + Body(n) == Body(n);
      assert Copies("", 0) + (Copies("a", n) + [""]) == Copies("a", n) + [""];
    } else {
      SplitGap(k - 1, n);
      var rest := Split(Newlines(k - 1) + Body(n));
      assert rest == Copies("", k - 1) + (Copies("a", n) + [""]);
      SplitCons('\n', Newlines(k - 1) + Body(n));
      assert Newlines(k) + Body(n) == ['\n'] + (Newlines(k - 1) + Body(n));
      CopiesHead("", k);
      ConcatAssoc([""], Copies("", k - 1), Copies("a", n) + [""]);
    }
  }

  lemma {:induction false} KeptBlanks(k: nat, rest: seq<string>)
    ensures Kept(Copies("", k) + rest) == Kept(rest)
  {
    if k == 0 {
      assert Copies("", 0) + rest == rest;
    } else {
      CopiesHead("", k);
      ConcatAssoc([""], Copies("", k - 1), rest);
      KeptCons("", Copies("", k - 1) + rest);
      KeptBlanks(k - 1, rest);
    }
  }

  lemma {:induction false} KeptLetters(n: nat)
    ensures Kept(Copies("a", n) + [""]) == Copies("a", n)
  {
    if n == 0 {
      assert Copies("a", 0) + [""] == Copies("", 1) + [];
      KeptBlanks(1, []);
    } else {
      CopiesHead("a", n);
      ConcatAssoc(["a"], Copies("a", n - 1), [""]);
      KeptCons("a", Copies("a", n - 1) + [""]);
      KeptLetters(n - 1);
    }
  }

  lemma FromLetter(n: nat)
    requires n > 0
    ensures |Kept(Split(Body(n))[1..])| < n
  {
    SplitBody(n);
    CopiesHead("a", n);
    assert Split(Body(n))[1..] == Copies("a", n - 1) + [""];
    KeptLetters(n - 1);
  }

  lemma FromNewline(n: nat)
    ensures |Kept(Split(['\n'] + Body(n))[1..])| <= n
  {
    SplitCons('\n', Body(n));
    SplitBody(n);
    assert Split(['\n'] + Body(n))[1..] == Copies("a", n) + [""];
    KeptLetters(n);
  }

  lemma BodySuffix(n: nat, i: nat)
    requires n > 0 && 1 <= i <= |Body(n)|
    ensures i == 1 ==> Body(n)[i..] == ['\n'] + Body(n - 1)
    ensures i > 1 ==> i - 2 <= |Body(n - 1)| && Body(n)[i..] == Body(n - 1)[i - 2..]
  {
  }

  /** Inside the body fewer than n lines have been listed. */
  lemma {:induction false} InsideBody(n: nat, i: nat)
    requires n > 0 && i <= |Body(n)|
    ensures |Kept(Split(Body(n)[i..])[1..])| < n
    decreases n
  {
    if i == 0 {
      assert Body(n)[0..] == Body(n);
      FromLetter(n);
    } else {
      BodySuffix(n, i);
      if i == 1 {
        FromNewline(n - 1);
      } else if n > 1 {
        InsideBody(n - 1, i - 2);
      }
    }
  }

  lemma {:induction false} NewlinesAre(k: nat)
    ensures |Newlines(k)| == k
  {
    if k > 0 {
      NewlinesAre(k - 1);
    }
  }

  lemma {:induction false} NewlinesFrom(k: nat, i: nat)
    requires i <= k
    ensures |Newlines(k)| == k && Newlines(k)[i..] == Newlines(k - i)
  {
    NewlinesAre(k);
    if i > 0 {
      NewlinesFrom(k - 1, i - 1);
      assert Newlines(k)[i..] == Newlines(k - 1)[i - 1..];
    }
  }

  /** Scanned back to the empty lines, the log has listed all of its body and nothing else. */
  lemma AtTheGap(limit: nat, chunkSize: nat, p: nat)
    requires 3 <= p < 3 + chunkSize
    ensures p <= |LongLog(limit, chunkSize)|
    ensures var pieces := Split(LongLog(limit, chunkSize)[p..]);
            pieces[0] == "" && Kept(pieces[1..]) == Copies("a", 2 * limit)
  {
    var n, i := 2 * limit, p - 3;
    var k := chunkSize - i;
    NewlinesFrom(chunkSize, i);
    assert LongLog(limit, chunkSize)[p..] == Newlines(chunkSize)[i..] + Body(n);
    SplitGap(k, n);
    CopiesHead("", k);
    assert Split(LongLog(limit, chunkSize)[p..])[1..] == Copies("", k - 1) + (Copies("a", n) + [""]);
    KeptBlanks(k - 1, Copies("a", n) + [""]);
    KeptLetters(n);
  }

  lemma PastTheGap(limit: nat, chunkSize: nat, p: nat)
    requires limit > 0 && 3 + chunkSize <= p <= |LongLog(limit, chunkSize)|
    ensures |Kept(Split(LongLog(limit, chunkSize)[p..])[1..])| < 2 * limit
  {
    NewlinesAre(chunkSize);
    assert LongLog(limit, chunkSize)[p..] == Body(2 * limit)[p - 3 - chunkSize..];
    InsideBody(2 * limit, p - 3 - chunkSize);
  }

  lemma {:induction false} ScanStopsInGap(limit: nat, chunkSize: nat, p: nat, leftover: string, rest: seq<string>)
    requires limit > 0 && chunkSize > 0 && 3 <= p <= |LongLog(limit, chunkSize)|
    requires Split(LongLog(limit, chunkSize)[p..]) == [leftover] + rest
    ensures Scan(LongLog(limit, chunkSize), p, leftover, Kept(rest), limit, chunkSize) == Copies("a", 2 * limit)
    decreases p
  {
    var file := LongLog(limit, chunkSize);
    if p < 3 + chunkSize {
      AtTheGap(limit, chunkSize, p);
      assert Split(file[p..])[1..] == rest;
      ScanEnds(file, p, leftover, Kept(rest), limit, chunkSize);
    } else {
      PastTheGap(limit, chunkSize, p);
      assert Split(file[p..])[1..] == rest;
      var from := p - chunkSize;
      var parts := Split(file[from..p] + leftover);
      ScanChunk(file, p, leftover, Kept(rest), limit, chunkSize, from, parts);
      ScanStep(file, from, p, leftover, rest);
      ScanStopsInGap(limit, chunkSize, from, parts[0], parts[1..] + rest);
    }
  }

  lemma {:induction false} LettersDoNotMatch(n: nat)
    ensures Matching(Copies("a", n), Some("[E]")) == []
  {
    if n > 0 {
      LettersDoNotMatch(n - 1);
      CopiesHead("a", n);
      assert Copies("a", n)[1..] == Copies("a", n - 1);
    }
  }

  lemma {:induction false} PieceInFront(x: string, tail: string, rest: seq<string>)
    requires NoNewline(x) && Split(tail) == [""] + rest
    ensures Split(x + tail) == [x] + rest
  {
    if x == "" {
      assert x + tail == tail;
    } else {
      assert x[0] in x && x == [x[0]] + x[1..];
      PieceInFront(x[1..], tail, rest);
      ConcatAssoc([x[0]], x[1..], tail);
      SplitCons(x[0], x[1..] + tail);
    }
  }

  lemma AllOfLongLog(limit: nat, chunkSize: nat)
    requires chunkSize > 0
    ensures AllLines(LongLog(limit, chunkSize)) == ["[E]"] + Copies("a", 2 * limit)
  {
    var n := 2 * limit;
    var rest := Copies("", chunkSize - 1) + (Copies("a", n) + [""]);
    SplitGap(chunkSize, n);
    CopiesHead("", chunkSize);
    ConcatAssoc([""], Copies("", chunkSize - 1), Copies("a", n) + [""]);
    PieceInFront("[E]", Newlines(chunkSize) + Body(n), rest);
    assert Split(LongLog(limit, chunkSize))[1..] == rest;
    KeptBlanks(chunkSize - 1, Copies("a", n) + [""]);
    KeptLetters(n);
  }

  lemma OneLineMatches(limit: nat, chunkSize: nat)
    requires chunkSize > 0
    ensures Matching(AllLines(LongLog(limit, chunkSize)), Some("[E]")) == ["[E]"]
  {
    LettersDoNotMatch(2 * limit);
    AllOfLongLog(limit, chunkSize);
    MatchingAppend(["[E]"], Copies("a", 2 * limit), Some("[E]"));
    assert OccursAt("[E]", "[E]", 0);
    OneMatch("[E]", "[E]");
  }

  /** Whatever the chunk size, 65536 bytes included, and whatever the limit: of this log the
      reader returns nothing, although it has a matching line. */
  lemma EveryChunkSizeMisses(limit: nat, chunkSize: nat)
    requires limit > 0 && chunkSize > 0
    ensures ReadTail(LongLog(limit, chunkSize), Some("[E]"), limit, chunkSize) == []
    ensures LastN(Matching(AllLines(LongLog(limit, chunkSize)), Some("[E]")), limit) == ["[E]"]
  {
    var file := LongLog(limit, chunkSize);
    assert file[|file|..] == "" && Kept([]) == [];
    ScanStopsInGap(limit, chunkSize, |file|, "", []);
    LettersDoNotMatch(2 * limit);
    OneLineMatches(limit, chunkSize);
  }
}

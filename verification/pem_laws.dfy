/** The normalizer is idempotent, reaches a normal form, and touches nothing but white space. */
module PemLaws {
  import opened Wrappers
  import opened Pem

  // ----- Character-by-character readings of the rewrites -----

  /** No literal backslash-n. */
  ghost predicate NoLiteral(s: string) {
    s == "" || (!("\\n" <= s) && NoLiteral(s[1..]))
  }

  /** Dashes seen last, up to five. */
  function Seen(k: nat, c: char): nat {
    if c != '-' then 0 else if k >= 5 then 5 else k + 1
  }

  /** No space after five dashes, k dashes having been seen before s. */
  ghost predicate NoSpaceAfter(k: nat, s: string)
    decreases |s|
  {
    s == "" || (!(s[0] == ' ' && k == 5) && NoSpaceAfter(Seen(k, s[0]), s[1..]))
  }

  /** No space before five dashes. */
  ghost predicate NoSpaceBefore(s: string) {
    s == "" || (!(s[0] == ' ' && "-----" <= s[1..]) && NoSpaceBefore(s[1..]))
  }

  /** No white space at the end of a line or of the string; blank lines are fine. */
  ghost predicate Tidy(s: string) {
    s == "" || (!(IsWhitespace(s[0]) && s[0] != '\n' && EndsLine(s[1..])) && Tidy(s[1..]))
  }

  predicate EndsLine(rest: string) {
    rest == "" || rest[0] == '\n'
  }

  ghost predicate EndsClean(s: string) {
    s == "" || !IsWhitespace(s[|s| - 1])
  }

  function BreakAfter(k: nat, s: string): (r: string)
    ensures |r| == |s|
    decreases |s|
  {
    if s == "" then "" else [if s[0] == ' ' && k == 5 then '\n' else s[0]] + BreakAfter(Seen(k, s[0]), s[1..])
  }

  function BreakBefore(s: string): (r: string)
    ensures |r| == |s|
  {
    if s == "" then "" else [if s[0] == ' ' && "-----" <= s[1..] then '\n' else s[0]] + BreakBefore(s[1..])
  }

  function TrimLines(s: string): string {
    if s == "" then ""
    else
      var rest := TrimLines(s[1..]);
      if IsWhitespace(s[0]) && s[0] != '\n' && EndsLine(rest) then rest else [s[0]] + rest
  }

  function Dashes(k: nat): (r: string)
    ensures |r| == k && forall i :: 0 <= i < k ==> r[i] == '-'
  {
    if k == 0 then "" else "-" + Dashes(k - 1)
  }

  lemma FiveDashes()
    ensures Dashes(5) == "-----"
  {
  }

  // ----- The first rewrite -----

  lemma {:induction false} LiteralsResolved(s: string)
    ensures NoLiteral(ReplaceAll(s, "\\n", "\n"))
    ensures s != "" ==> ReplaceAll(s, "\\n", "\n") != "" && ReplaceAll(s, "\\n", "\n")[0] in {s[0], '\n'}
    decreases |s|
  {
    if s != "" {
      var r := ReplaceAll(s, "\\n", "\n");
      if "\\n" <= s {
        LiteralsResolved(s[2..]);
        assert r == "\n" + ReplaceAll(s[2..], "\\n", "\n");
        assert r[0] == '\n' && r[1..] == ReplaceAll(s[2..], "\\n", "\n");
      } else {
        LiteralsResolved(s[1..]);
        assert r[1..] == ReplaceAll(s[1..], "\\n", "\n");
        assert "\\n" <= s <==> |s| >= 2 && s[0] == '\\' && s[1] == 'n';
      }
    }
  }

  lemma {:induction false} NothingToResolve(s: string)
    requires NoLiteral(s)
    ensures ReplaceAll(s, "\\n", "\n") == s
  {
    if s != "" {
      NothingToResolve(s[1..]);
    }
  }

  // ----- The marker rewrites -----

  lemma NoMatchHere(c: char, s: string)
    requires !("----- " <= [c] + s)
    ensures ReplaceAll([c] + s, "----- ", "-----\n") == [c] + ReplaceAll(s, "----- ", "-----\n")
  {
    assert ([c] + s)[1..] == s;
  }

  lemma NotAMarker(k: nat, x: char, rest: string)
    requires k <= 5 && x != '-' && !(k == 5 && x == ' ')
    ensures !("----- " <= Dashes(k) + ([x] + rest))
  {
    assert (Dashes(k) + ([x] + rest))[k] == x != "----- "[k];
  }

  lemma DashInFront(k: nat, s: string)
    requires k > 0
    ensures Dashes(k) + s == ['-'] + (Dashes(k - 1) + s)
  {
  }

  /** Characters that cannot be part of a match are copied. */
  lemma {:induction false} CopiesUpTo(k: nat, x: char, rest: string)
    requires k <= 5 && x != '-' && !(k == 5 && x == ' ')
    ensures ReplaceAll(Dashes(k) + ([x] + rest), "----- ", "-----\n")
            == Dashes(k) + ([x] + ReplaceAll(rest, "----- ", "-----\n"))
  {
    NotAMarker(k, x, rest);
    if k == 0 {
      assert Dashes(0) + ([x] + rest) == [x] + rest;
      NoMatchHere(x, rest);
    } else {
      CopiesUpTo(k - 1, x, rest);
      DashInFront(k, [x] + rest);
      DashInFront(k, [x] + ReplaceAll(rest, "----- ", "-----\n"));
      NoMatchHere('-', Dashes(k - 1) + ([x] + rest));
    }
  }

  /** `BreakAfter` is the rewrite, seen with k dashes already read. */
  ghost predicate Matches(k: nat, s: string) {
    ReplaceAll(Dashes(k) + s, "----- ", "-----\n") == Dashes(k) + BreakAfter(k, s)
  }

  lemma {:induction false} BreakAfterIsReplace(k: nat, s: string)
    requires k <= 5
    ensures Matches(k, s)
    decreases |s|
  {
    if s == "" {
      OnlyDashes(k);
      assert Dashes(k) + "" == Dashes(k);
    } else {
      var x, rest := s[0], s[1..];
      assert s == [x] + rest;
      BreakAfterIsReplace(Seen(k, x), rest);
      if x == '-' && k < 5 {
        OneMoreDash(k, rest);
      } else if x == '-' {
        SixDashes(rest);
      } else if k == 5 && x == ' ' {
        SpaceAfterMarker(rest);
      } else {
        OtherCharacter(k, x, rest);
      }
    }
  }

  lemma OneMoreDash(k: nat, rest: string)
    requires k < 5 && Matches(k + 1, rest)
    ensures Matches(k, "-" + rest)
  {
    SnocDash(k);
    assert Dashes(k) + ("-" + rest) == Dashes(k + 1) + rest;
    assert ("-" + rest)[1..] == rest;
    assert Dashes(k) + ("-" + BreakAfter(k + 1, rest)) == Dashes(k + 1) + BreakAfter(k + 1, rest);
  }

  lemma MarkerLine(tail: string)
    ensures "-----\n" + tail == "-----" + ("\n" + tail)
  {
  }

  lemma SpaceAfterMarker(rest: string)
    requires Matches(0, rest)
    ensures Matches(5, " " + rest)
  {
    FiveDashes();
    NoDashes(rest);
    var s := Dashes(5) + (" " + rest);
    assert s == "----- " + rest;
    assert s[6..] == rest;
    assert (" " + rest)[1..] == rest;
    MarkerLine(BreakAfter(0, rest));
  }

  lemma BreakAfterCons(k: nat, x: char, rest: string)
    requires x != '-' && !(k == 5 && x == ' ')
    ensures BreakAfter(k, [x] + rest) == [x] + BreakAfter(0, rest)
  {
    assert ([x] + rest)[1..] == rest;
  }

  lemma OtherCharacter(k: nat, x: char, rest: string)
    requires k <= 5 && x != '-' && !(k == 5 && x == ' ') && Matches(0, rest)
    ensures Matches(k, [x] + rest)
  {
    NoDashes(rest);
    CopiesUpTo(k, x, rest);
    BreakAfterCons(k, x, rest);
  }

  lemma NoDashes(rest: string)
    ensures Matches(0, rest) <==> ReplaceAll(rest, "----- ", "-----\n") == BreakAfter(0, rest)
  {
    assert Dashes(0) + rest == rest && Dashes(0) + BreakAfter(0, rest) == BreakAfter(0, rest);
  }

  lemma SixDashes(rest: string)
    requires Matches(5, rest)
    ensures Matches(5, "-" + rest)
  {
    SnocDash(5);
    var s := Dashes(5) + ("-" + rest);
    assert s == Dashes(6) + rest;
    assert s[5] == '-';
    assert s[1..] == Dashes(5) + rest;
    assert ("-" + rest)[1..] == rest;
    assert [s[0]] + (Dashes(5) + BreakAfter(5, rest)) == Dashes(6) + BreakAfter(5, rest);
    assert Dashes(6) + BreakAfter(5, rest) == Dashes(5) + ("-" + BreakAfter(5, rest));
  }

  lemma {:induction false} OnlyDashes(k: nat)
    ensures ReplaceAll(Dashes(k), "----- ", "-----\n") == Dashes(k)
  {
    if k > 0 {
      OnlyDashes(k - 1);
      assert Dashes(k)[1..] == Dashes(k - 1);
      PrefixHasSpace(Dashes(k));
    }
  }

  lemma PrefixHasSpace(s: string)
    ensures "----- " <= s ==> ' ' in s
  {
    assert "----- "[5] == ' ';
  }

  lemma SnocDash(k: nat)
    ensures Dashes(k + 1) == Dashes(k) + "-"
  {
  }

  lemma {:induction false} BreakBeforeIsReplace(s: string)
    ensures ReplaceAll(s, " -----", "\n-----") == BreakBefore(s)
    decreases |s|
  {
    if s != "" {
      if " -----" <= s {
        var rest := s[6..];
        BreakBeforeIsReplace(rest);
        FiveDashes();
        assert s[1..] == Dashes(5) + rest;
        assert "-----" <= s[1..];
        DashesStay(5, rest);
      } else {
        BreakBeforeIsReplace(s[1..]);
        assert s[0] == ' ' && "-----" <= s[1..] ==> " -----" <= s;
      }
    }
  }

  lemma {:induction false} DashesStay(k: nat, rest: string)
    ensures BreakBefore(Dashes(k) + rest) == Dashes(k) + BreakBefore(rest)
  {
    if k == 0 {
      assert Dashes(k) + rest == rest;
      assert Dashes(k) + BreakBefore(rest) == BreakBefore(rest);
    } else {
      assert (Dashes(k) + rest)[1..] == Dashes(k - 1) + rest;
      DashesStay(k - 1, rest);
      assert ['-'] + (Dashes(k - 1) + BreakBefore(rest)) == Dashes(k) + BreakBefore(rest);
    }
  }

  // ----- Each rewrite keeps what the earlier ones established -----

  /** t is s with some spaces turned into newlines. */
  ghost predicate SpacesBroken(s: string, t: string) {
    |t| == |s| && forall i :: 0 <= i < |s| ==> t[i] == s[i] || (s[i] == ' ' && t[i] == '\n')
  }

  lemma {:induction false} BreakAfterBreaks(k: nat, s: string)
    ensures SpacesBroken(s, BreakAfter(k, s)) && NoSpaceAfter(k, BreakAfter(k, s))
    decreases |s|
  {
    if s != "" {
      BreakAfterBreaks(Seen(k, s[0]), s[1..]);
      var t := BreakAfter(k, s);
      assert t[1..] == BreakAfter(Seen(k, s[0]), s[1..]);
      assert Seen(k, t[0]) == Seen(k, s[0]);
    }
  }

  /** A prefix without newlines was there before spaces were broken. */
  lemma UnbrokenPrefix(s: string, t: string, p: string)
    requires SpacesBroken(s, t) && '\n' !in p
    ensures p <= t ==> p <= s
  {
    if p <= t {
      assert forall i :: 0 <= i < |p| ==> p[i] == t[i] && p[i] in p;
    }
  }

  lemma {:induction false} BreakBeforeBreaks(s: string)
    ensures SpacesBroken(s, BreakBefore(s)) && NoSpaceBefore(BreakBefore(s))
  {
    if s != "" {
      BreakBeforeBreaks(s[1..]);
      var t := BreakBefore(s);
      assert t[1..] == BreakBefore(s[1..]);
      UnbrokenPrefix(s[1..], t[1..], "-----");
    }
  }

  lemma {:induction false} BrokenKeepsNoLiteral(s: string, t: string)
    requires SpacesBroken(s, t) && NoLiteral(s)
    ensures NoLiteral(t)
  {
    if s != "" {
      assert SpacesBroken(s[1..], t[1..]);
      BrokenKeepsNoLiteral(s[1..], t[1..]);
      UnbrokenPrefix(s, t, "\\n");
    }
  }

  lemma {:induction false} BrokenKeepsNoSpaceAfter(k: nat, s: string, t: string)
    requires SpacesBroken(s, t) && NoSpaceAfter(k, s)
    ensures NoSpaceAfter(k, t)
    decreases |s|
  {
    if s != "" {
      assert SpacesBroken(s[1..], t[1..]);
      BrokenKeepsNoSpaceAfter(Seen(k, s[0]), s[1..], t[1..]);
      assert Seen(k, t[0]) == Seen(k, s[0]);
    }
  }

  lemma {:induction false} NothingToBreakAfter(k: nat, s: string)
    requires NoSpaceAfter(k, s)
    ensures BreakAfter(k, s) == s
    decreases |s|
  {
    if s != "" {
      NothingToBreakAfter(Seen(k, s[0]), s[1..]);
    }
  }

  lemma {:induction false} NothingToBreakBefore(s: string)
    requires NoSpaceBefore(s)
    ensures BreakBefore(s) == s
  {
    if s != "" {
      NothingToBreakBefore(s[1..]);
    }
  }

  lemma {:induction false} TrimEndKeeps(s: string)
    ensures EndsClean(TrimEnd(s)) && TrimEnd(s) <= s
    ensures NoLiteral(s) ==> NoLiteral(TrimEnd(s))
  {
    if s != "" && IsWhitespace(s[|s| - 1]) {
      TrimEndKeeps(s[..|s| - 1]);
      if NoLiteral(s) {
        PrefixKeepsNoLiteral(s[..|s| - 1], s);
      }
    }
  }

  lemma {:induction false} PrefixKeepsNoLiteral(p: string, s: string)
    requires p <= s && NoLiteral(s)
    ensures NoLiteral(p)
  {
    if p != "" {
      PrefixKeepsNoLiteral(p[1..], s[1..]);
    }
  }

  // ----- Trimming the lines -----

  lemma {:induction false} TrimLinesIsTidy(s: string)
    ensures Tidy(TrimLines(s))
  {
    if s != "" {
      TrimLinesIsTidy(s[1..]);
      var rest := TrimLines(s[1..]);
      assert ([s[0]] + rest)[1..] == rest;
    }
  }

  lemma {:induction false} TidyIsTrimmed(s: string)
    requires Tidy(s)
    ensures TrimLines(s) == s
  {
    if s != "" {
      TidyIsTrimmed(s[1..]);
    }
  }

  /** What TrimLines puts at the front was there, up to the first newline. */
  lemma {:induction false} TrimmedPrefix(s: string, p: string)
    requires p <= TrimLines(s) && '\n' !in p
    ensures p <= s
  {
    if p != "" {
      var rest := TrimLines(s[1..]);
      assert TrimLines(s) == [s[0]] + rest by {
        assert p[0] != '\n' && TrimLines(s)[0] == p[0];
      }
      assert p[1..] <= rest by {
        assert ([s[0]] + rest)[1..] == rest;
      }
      TrimmedPrefix(s[1..], p[1..]);
      assert s == [s[0]] + s[1..] && p == [p[0]] + p[1..];
    }
  }

  lemma {:induction false} TrimLinesKeepsNoLiteral(s: string)
    requires NoLiteral(s)
    ensures NoLiteral(TrimLines(s))
  {
    if s != "" {
      TrimLinesKeepsNoLiteral(s[1..]);
      var rest := TrimLines(s[1..]);
      assert ([s[0]] + rest)[1..] == rest;
      if "\\n" <= TrimLines(s) {
        TrimmedPrefix(s, "\\n");
      }
    }
  }

  lemma {:induction false} TrimLinesKeepsNoSpaceBefore(s: string)
    requires NoSpaceBefore(s)
    ensures NoSpaceBefore(TrimLines(s))
  {
    if s != "" {
      TrimLinesKeepsNoSpaceBefore(s[1..]);
      var rest := TrimLines(s[1..]);
      assert ([s[0]] + rest)[1..] == rest;
      if "-----" <= rest {
        TrimmedPrefix(s[1..], "-----");
      }
    }
  }

  lemma {:induction false} TrimLinesKeepsNoSpaceAfter(k: nat, s: string)
    requires NoSpaceAfter(k, s)
    ensures NoSpaceAfter(k, TrimLines(s))
    decreases |s|
  {
    if s != "" {
      TrimLinesKeepsNoSpaceAfter(Seen(k, s[0]), s[1..]);
      var rest := TrimLines(s[1..]);
      assert ([s[0]] + rest)[1..] == rest;
      assert EndsLine(rest) ==> forall j: nat, l: nat :: NoSpaceAfter(j, rest) ==> NoSpaceAfter(l, rest);
    }
  }

  lemma {:induction false} TrimLinesKeepsEnd(s: string)
    requires EndsClean(s)
    ensures EndsClean(TrimLines(s)) && (s != "" ==> TrimLines(s) != "")
  {
    if s != "" {
      TrimLinesKeepsEnd(s[1..]);
      if |s| == 1 {
        assert TrimLines(s[1..]) == "";
      } else {
        var rest := TrimLines(s[1..]);
        assert rest != "";
      }
    }
  }

  // ----- Lines, trim and join are TrimLines -----

  lemma {:induction false} TrimEndCons(c: char, s: string)
    ensures TrimEnd([c] + s) == if TrimEnd(s) == "" && IsWhitespace(c) then "" else [c] + TrimEnd(s)
  {
    var t := [c] + s;
    if s == "" {
      assert t == [c] && t[..0] == "";
    } else if IsWhitespace(s[|s| - 1]) {
      assert t[..|t| - 1] == [c] + s[..|s| - 1];
      TrimEndCons(c, s[..|s| - 1]);
    }
  }

  lemma TrimLinesCons(c: char, x: string)
    ensures TrimLines([c] + x) == if IsWhitespace(c) && c != '\n' && EndsLine(TrimLines(x)) then TrimLines(x)
        else [c] + TrimLines(x)
  {
    assert ([c] + x)[1..] == x;
  }

  lemma EndsLineConcat(t: string, r: string)
    requires '\n' !in t && EndsLine(r)
    ensures EndsLine(t + r) <==> t == ""
  {
    if t == "" {
      assert t + r == r;
    } else {
      assert (t + r)[0] == t[0] && t[0] in t;
    }
  }

  /** One more character in front of a line: t is what is left of the line, r of the rest. */
  lemma TrimOneMore(c: char, x: string, t: string, r: string)
    requires c != '\n' && '\n' !in t && EndsLine(r) && TrimLines(x) == t + r
    ensures TrimLines([c] + x) == (if t == "" && IsWhitespace(c) then "" else [c] + t) + r
  {
    TrimLinesCons(c, x);
    EndsLineConcat(t, r);
    if t == "" {
      assert TrimLines(x) == r;
      assert "" + r == r && [c] + t + r == [c] + r;
    } else {
      Associative([c], t, r);
    }
  }

  lemma {:induction false} TrimOneLine(line: string, rest: string)
    requires '\n' !in line && EndsLine(rest)
    ensures TrimLines(line + rest) == TrimEnd(line) + TrimLines(rest)
    ensures EndsLine(TrimLines(rest))
  {
    if line == "" {
      assert line + rest == rest;
      assert TrimEnd(line) + TrimLines(rest) == TrimLines(rest);
    } else {
      TrimOneLine(line[1..], rest);
      TrimEndCons(line[0], line[1..]);
      TrimEndKeeps(line[1..]);
      TrimOneMore(line[0], line[1..] + rest, TrimEnd(line[1..]), TrimLines(rest));
      Uncons(line, rest);
    }
  }

  lemma Uncons(line: string, rest: string)
    requires line != ""
    ensures line + rest == [line[0]] + (line[1..] + rest) && line == [line[0]] + line[1..]
  {
  }

  lemma NewlineStays(tail: string)
    ensures TrimLines("\n" + tail) == "\n" + TrimLines(tail)
  {
    assert ("\n" + tail)[1..] == tail;
  }

  lemma TrimStripped(line: string)
    ensures TrimEnd(StripCarriageReturn(line)) == TrimEnd(line)
  {
  }

  lemma JoinFirst(head: string, lines: seq<string>)
    requires lines != []
    ensures JoinLines(TrimEach([head] + lines)) == TrimEnd(head) + "\n" + JoinLines(TrimEach(lines))
  {
    assert ([head] + lines)[1..] == lines;
    var trimmed := TrimEach([head] + lines);
    assert trimmed[1..] == TrimEach(lines) && trimmed[0] == TrimEnd(head);
  }

  /** The first of several lines. */
  lemma FirstLine(line: string, tail: string, lines: seq<string>)
    requires '\n' !in line && lines != []
    requires JoinLines(TrimEach(lines)) == TrimLines(tail)
    ensures JoinLines(TrimEach([StripCarriageReturn(line)] + lines)) == TrimLines(line + ("\n" + tail))
  {
    TrimStripped(line);
    JoinFirst(StripCarriageReturn(line), lines);
    LineThenTail(line, tail);
  }

  lemma LineThenTail(line: string, tail: string)
    requires '\n' !in line
    ensures TrimLines(line + ("\n" + tail)) == TrimEnd(line) + "\n" + TrimLines(tail)
  {
    TrimOneLine(line, "\n" + tail);
    NewlineStays(tail);
    assert TrimEnd(line) + ("\n" + TrimLines(tail)) == TrimEnd(line) + "\n" + TrimLines(tail);
  }

  lemma LastLine(line: string)
    requires '\n' !in line
    ensures JoinLines(TrimEach([line])) == TrimLines(line)
  {
    TrimOneLine(line, "");
    assert line + "" == line && TrimEnd(line) + "" == TrimEnd(line);
    assert TrimEach([line]) == [TrimEnd(line)];
  }

  lemma CutAtNewline(s: string, n: nat)
    requires n < |s| && s[n] == '\n' && EndsClean(s)
    ensures s == s[..n] + ("\n" + s[n + 1..]) && s[n + 1..] != "" && EndsClean(s[n + 1..])
  {
  }

  lemma LinesStep(s: string)
    requires LineEnd(s) < |s|
    ensures Lines(s) == [StripCarriageReturn(s[..LineEnd(s)])] + Lines(s[LineEnd(s) + 1..])
  {
  }

  lemma SomeLines(s: string)
    requires s != ""
    ensures Lines(s) != []
  {
  }

  lemma LinesSplit(s: string) returns (tail: string)
    requires EndsClean(s) && LineEnd(s) < |s|
    ensures s == s[..LineEnd(s)] + ("\n" + tail) && |tail| < |s|
    ensures EndsClean(tail) && Lines(tail) != []
    ensures Lines(s) == [StripCarriageReturn(s[..LineEnd(s)])] + Lines(tail)
  {
    var n := LineEnd(s);
    tail := s[n + 1..];
    CutAtNewline(s, n);
    LinesStep(s);
    SomeLines(tail);
  }

  lemma {:induction false} JoinedLines(s: string)
    requires EndsClean(s)
    ensures JoinLines(TrimEach(Lines(s))) == TrimLines(s)
    decreases |s|
  {
    if LineEnd(s) < |s| {
      var tail := LinesSplit(s);
      JoinedLines(tail);
      FirstLine(s[..LineEnd(s)], tail, Lines(tail));
    } else if s != "" {
      assert s[..LineEnd(s)] == s;
      LastLine(s);
    }
  }

  // ----- The normal form -----

  /** What the normalizer makes of a string, before the final newline. */
  function Core(pem: string): string {
    TrimLines(BreakBefore(BreakAfter(0, TrimEnd(ReplaceAll(pem, "\\n", "\n")))))
  }

  ghost predicate CoreNormal(t: string) {
    NoLiteral(t) && NoSpaceAfter(0, t) && NoSpaceBefore(t) && Tidy(t) && EndsClean(t)
  }

  lemma BrokenKeepsEnd(s: string, t: string)
    requires SpacesBroken(s, t) && EndsClean(s)
    ensures EndsClean(t)
  {
  }

  lemma NormalizeIsCore(pem: string)
    ensures NormalizePem(pem) == Core(pem) + "\n" && CoreNormal(Core(pem))
  {
    var resolved := ReplaceAll(pem, "\\n", "\n");
    LiteralsResolved(pem);
    TrimEndKeeps(resolved);
    var trimmed := TrimEnd(resolved);
    BreakAfterIsReplace(0, trimmed);
    NoDashes(trimmed);
    BreakAfterBreaks(0, trimmed);
    var after := BreakAfter(0, trimmed);
    BrokenKeepsNoLiteral(trimmed, after);
    BrokenKeepsEnd(trimmed, after);
    BreakBeforeIsReplace(after);
    BreakBeforeBreaks(after);
    var before := BreakBefore(after);
    BrokenKeepsNoLiteral(after, before);
    BrokenKeepsNoSpaceAfter(0, after, before);
    BrokenKeepsEnd(after, before);
    JoinedLines(before);
    TrimLinesIsTidy(before);
    TrimLinesKeepsNoLiteral(before);
    TrimLinesKeepsNoSpaceBefore(before);
    TrimLinesKeepsNoSpaceAfter(0, before);
    TrimLinesKeepsEnd(before);
  }

  /** A prefix without newlines does not reach the newline added at the end. */
  lemma PrefixBeforeNewline(t: string, p: string)
    requires '\n' !in p
    ensures p <= t + "\n" ==> p <= t
  {
    if p <= t + "\n" {
      assert (t + "\n")[|t|] == '\n';
      assert forall i :: 0 <= i < |p| ==> p[i] in p && p[i] == (t + "\n")[i];
      assert |p| <= |t| && p == t[..|p|];
    }
  }

  lemma {:induction false} NewlineKeepsNoLiteral(t: string)
    requires NoLiteral(t)
    ensures NoLiteral(t + "\n")
  {
    if t != "" {
      NewlineKeepsNoLiteral(t[1..]);
      assert (t + "\n")[1..] == t[1..] + "\n";
      PrefixBeforeNewline(t, "\\n");
    } else {
      assert t + "\n" == "\n";
    }
  }

  lemma NormalIsFixed(t: string)
    requires CoreNormal(t)
    ensures NormalizePem(t + "\n") == t + "\n"
  {
    NewlineKeepsNoLiteral(t);
    NothingToResolve(t + "\n");
    assert (t + "\n")[..|t|] == t;
    assert TrimEnd(t + "\n") == t;
    NothingToBreakAfter(0, t);
    NothingToBreakBefore(t);
    TidyIsTrimmed(t);
    NormalizeIsCore(t + "\n");
  }

  /** For every string, normalizing twice is normalizing once. */
  lemma NormalizeIsIdempotent(pem: string)
    ensures NormalizePem(NormalizePem(pem)) == NormalizePem(pem)
  {
    NormalizeIsCore(pem);
    NormalIsFixed(Core(pem));
  }

  /** The normalizer's fixed points are exactly the strings in normal form. */
  lemma FixedPoints(s: string)
    ensures NormalizePem(s) == s <==> s != "" && s[|s| - 1] == '\n' && CoreNormal(s[..|s| - 1])
  {
    NormalizeIsCore(s);
    if s != "" && s[|s| - 1] == '\n' && CoreNormal(s[..|s| - 1]) {
      NormalIsFixed(s[..|s| - 1]);
      assert s == s[..|s| - 1] + "\n";
    }
    if NormalizePem(s) == s {
      assert s[..|s| - 1] == Core(s);
    }
  }

  // ----- The normal form in terms of substrings and lines -----

  lemma {:induction false} NoLiteralMeansNone(t: string)
    requires NoLiteral(t)
    ensures !Contains(t, "\\n")
  {
    if t != "" {
      NoLiteralMeansNone(t[1..]);
    }
  }

  lemma {:induction false} MarkerThenSpace(k: nat, n: nat, t: string)
    requires k <= 5 <= k + n && Dashes(n) + " " <= t
    ensures !NoSpaceAfter(k, t)
    decreases n
  {
    var p := Dashes(n) + " ";
    assert p[0] == t[0];
    if n > 0 {
      assert p[1..] == Dashes(n - 1) + " " && p[1..] <= t[1..];
      MarkerThenSpace(Seen(k, '-'), n - 1, t[1..]);
    }
  }

  lemma {:induction false} NoSpaceAfterMeansNone(k: nat, t: string)
    requires k <= 5 && NoSpaceAfter(k, t)
    ensures !Contains(t, "----- ")
    decreases |t|
  {
    if "----- " <= t {
      FiveDashes();
      MarkerThenSpace(k, 5, t);
    }
    if t != "" {
      NoSpaceAfterMeansNone(Seen(k, t[0]), t[1..]);
    }
  }

  lemma {:induction false} NoSpaceBeforeMeansNone(t: string)
    requires NoSpaceBefore(t)
    ensures !Contains(t, " -----")
  {
    if t != "" {
      NoSpaceBeforeMeansNone(t[1..]);
      assert " -----" <= t ==> t[0] == ' ' && "-----" <= t[1..];
    }
  }

  lemma {:induction false} ContainsInPrefix(t: string, pattern: string)
    requires Contains(t + "\n", pattern) && '\n' !in pattern && pattern != ""
    ensures Contains(t, pattern)
  {
    var s := t + "\n";
    PrefixBeforeNewline(t, pattern);
    if !(pattern <= s) {
      assert s[1..] == if t == "" then "" else t[1..] + "\n";
      if t != "" {
        ContainsInPrefix(t[1..], pattern);
      }
    }
  }

  lemma {:induction false} TidyLines(t: string, line: string)
    requires Tidy(t) && line in Lines(t + "\n")
    ensures TrimEnd(line) == line
    decreases |t|
  {
    var s := t + "\n";
    var n := LineEnd(s);
    assert n <= |t| by {
      assert s[|t|] == '\n';
      assert forall i :: 0 <= i < n ==> s[i] in s[..n];
    }
    assert s[..n] == t[..n];
    TidyFirstLine(t, n);
    if line in Lines(s[n + 1..]) {
      var rest := t[n + 1..];
      assert s[n + 1..] == rest + "\n";
      TidySuffix(t, n + 1);
      TidyLines(rest, line);
    }
  }

  lemma {:induction false} TidySuffix(t: string, n: nat)
    requires Tidy(t) && n <= |t|
    ensures Tidy(t[n..])
  {
    if n > 0 {
      TidySuffix(t[1..], n - 1);
      assert t[1..][n - 1..] == t[n..];
    }
  }

  lemma TidyFirstLine(t: string, n: nat)
    requires Tidy(t) && n <= |t| && EndsLine(t[n..]) && '\n' !in t[..n]
    ensures StripCarriageReturn(t[..n]) == t[..n] && TrimEnd(t[..n]) == t[..n]
  {
    if n > 0 {
      TidySuffix(t, n - 1);
      assert t[n - 1..][1..] == t[n..];
      assert t[n - 1] in t[..n];
    }
  }

  /**
   The normal form: a final newline, no space next to a five-dash marker, no literal backslash-n and
   no line with trailing white space.
   */
  lemma NormalForm(pem: string, line: string)
    ensures var out := NormalizePem(pem);
            && out != "" && out[|out| - 1] == '\n'
            && !Contains(out, "----- ") && !Contains(out, " -----") && !Contains(out, "\\n")
            && (line in Lines(out) ==> TrimEnd(line) == line)
  {
    NormalizeIsCore(pem);
    var t := Core(pem);
    NewlineKeepsNoLiteral(t);
    NoLiteralMeansNone(t + "\n");
    NoSpaceAfterMeansNone(0, t);
    NoSpaceBeforeMeansNone(t);
    if Contains(t + "\n", "----- ") {
      ContainsInPrefix(t, "----- ");
    }
    if Contains(t + "\n", " -----") {
      ContainsInPrefix(t, " -----");
    }
    if line in Lines(t + "\n") {
      TidyLines(t, line);
    }
  }

  // ----- Nothing but white space changes -----

  function Squeeze(s: string): string {
    if s == "" then "" else (if IsWhitespace(s[0]) then "" else [s[0]]) + Squeeze(s[1..])
  }

  lemma SqueezeCons(c: char, x: string)
    ensures Squeeze([c] + x) == (if IsWhitespace(c) then "" else [c]) + Squeeze(x)
  {
    assert ([c] + x)[1..] == x;
  }

  lemma {:induction false} SqueezeConcat(a: string, b: string)
    ensures Squeeze(a + b) == Squeeze(a) + Squeeze(b)
  {
    if a == "" {
      assert a + b == b && "" + Squeeze(b) == Squeeze(b);
    } else {
      SqueezeConcat(a[1..], b);
      SqueezeCons(a[0], a[1..] + b);
      assert [a[0]] + (a[1..] + b) == a + b;
      Associative(if IsWhitespace(a[0]) then "" else [a[0]], Squeeze(a[1..]), Squeeze(b));
    }
  }

  lemma {:induction false} SqueezeTrimEnd(s: string)
    ensures Squeeze(TrimEnd(s)) == Squeeze(s)
  {
    if s != "" && IsWhitespace(s[|s| - 1]) {
      SqueezeTrimEnd(s[..|s| - 1]);
      SqueezeConcat(s[..|s| - 1], [s[|s| - 1]]);
      assert s == s[..|s| - 1] + [s[|s| - 1]];
    }
  }

  lemma {:induction false} SqueezeBroken(s: string, t: string)
    requires SpacesBroken(s, t)
    ensures Squeeze(t) == Squeeze(s)
  {
    if s != "" {
      assert SpacesBroken(s[1..], t[1..]);
      SqueezeBroken(s[1..], t[1..]);
    }
  }

  lemma {:induction false} SqueezeTrimLines(s: string)
    ensures Squeeze(TrimLines(s)) == Squeeze(s)
  {
    if s != "" {
      SqueezeTrimLines(s[1..]);
      var rest := TrimLines(s[1..]);
      assert ([s[0]] + rest)[1..] == rest;
    }
  }

  /** Apart from white space the output is the input with its literal backslash-n sequences taken out. */
  lemma OnlyWhitespaceChanges(pem: string)
    ensures Squeeze(NormalizePem(pem)) == Squeeze(ReplaceAll(pem, "\\n", "\n"))
  {
    NormalizeIsCore(pem);
    var resolved := ReplaceAll(pem, "\\n", "\n");
    var trimmed := TrimEnd(resolved);
    var after := BreakAfter(0, trimmed);
    SqueezeTrimEnd(resolved);
    BreakAfterBreaks(0, trimmed);
    SqueezeBroken(trimmed, after);
    BreakBeforeBreaks(after);
    SqueezeBroken(after, BreakBefore(after));
    SqueezeTrimLines(BreakBefore(after));
    SqueezeConcat(Core(pem), "\n");
  }
}

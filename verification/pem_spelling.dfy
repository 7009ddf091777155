/**
 What the normalizer is for: it restores the line breaks of a text whose newlines have been written as literal
 backslash-n sequences, or as spaces next to a marker. It undoes every such spelling, and nothing else.
 */
module PemSpelling {
  import opened Wrappers
  import opened Pem
  import opened PemLaws

  // ----- Spelling a text -----

  /** How a newline is written; a space can stand for it after or before a five-dash marker only. */
  datatype Form = Newline | Literal | AfterMarker | BeforeMarker

  /** A newline, with the white space left at the end of the line before it. */
  datatype Spelling = Spelling(pad: string, form: Form)

  function Written(form: Form): string {
    match form
    case Newline => "\n"
    case Literal => "\\n"
    case AfterMarker => " "
    case BeforeMarker => " "
  }

  /** The text with each newline spelled as f says for the number of characters from it to the end. */
  function Spell(t: string, f: nat -> Spelling): string {
    if t == "" then ""
    else if t[0] == '\n' then f(|t|).pad + (Written(f(|t|).form) + Spell(t[1..], f))
    else [t[0]] + Spell(t[1..], f)
  }

  predicate IsPadding(pad: string) {
    forall c :: c in pad ==> IsWhitespace(c) && c != '\n'
  }

  /** A space right after a marker is a line break already, so it is no padding. */
  ghost predicate Permitted(k: nat, s: Spelling, rest: string) {
    && IsPadding(s.pad) && (k == 5 && s.pad != "" ==> s.pad[0] != ' ')
    && (s.form.AfterMarker? ==> k == 5 && s.pad == "")
    && (s.form.BeforeMarker? ==> "-----" <= rest && !(k == 5 && s.pad == ""))
  }

  /** Every newline of the text is spelled in a way that is permitted where it stands. */
  ghost predicate Permits(k: nat, t: string, f: nat -> Spelling)
    decreases |t|
  {
    t == "" || ((t[0] == '\n' ==> Permitted(k, f(|t|), t[1..])) && Permits(Seen(k, t[0]), t[1..], f))
  }

  /** White space and literal backslash-n sequences. */
  ghost predicate Blank(s: string)
    decreases |s|
  {
    s == "" || (IsWhitespace(s[0]) && Blank(s[1..])) || ("\\n" <= s && Blank(s[2..]))
  }

  ghost predicate IsSpelling(x: string, t: string, f: nat -> Spelling, tail: string) {
    Permits(0, t, f) && Blank(tail) && x == Spell(t, f) + tail
  }

  // ----- The rewrites between the first and the last, character by character -----

  function OnePass(k: nat, s: string): string {
    TrimLines(BreakBefore(BreakAfter(k, s)))
  }

  lemma MarkerUnbroken(s: string, t: string)
    requires SpacesBroken(s, t)
    ensures "-----" <= s <==> "-----" <= t
  {
    UnbrokenPrefix(s, t, "-----");
    if "-----" <= s {
      assert forall i :: 0 <= i < 5 ==> s[i] == '-' && t[i] == '-';
    }
  }

  lemma BreakAfterStep(k: nat, c: char, s: string)
    ensures BreakAfter(k, [c] + s) == [if c == ' ' && k == 5 then '\n' else c] + BreakAfter(Seen(k, c), s)
  {
    assert ([c] + s)[1..] == s;
  }

  lemma BreakBeforeStep(c: char, s: string)
    ensures BreakBefore([c] + s) == [if c == ' ' && "-----" <= s then '\n' else c] + BreakBefore(s)
  {
    assert ([c] + s)[1..] == s;
  }

  predicate Breaks(k: nat, c: char, s: string) {
    c == '\n' || (c == ' ' && (k == 5 || "-----" <= s))
  }

  /** A line break, white space at the end of a line, or any other character. */
  lemma OnePassCons(k: nat, c: char, s: string)
    ensures var rest := OnePass(Seen(k, c), s);
            OnePass(k, [c] + s) == if Breaks(k, c, s) then "\n" + rest
                                   else if IsWhitespace(c) && EndsLine(rest) then rest else [c] + rest
  {
    var after := BreakAfter(Seen(k, c), s);
    BreakAfterStep(k, c, s);
    BreakAfterBreaks(Seen(k, c), s);
    MarkerUnbroken(s, after);
    BreakBeforeStep(if c == ' ' && k == 5 then '\n' else c, after);
    TrimLinesCons(if Breaks(k, c, s) then '\n' else c, BreakBefore(after));
  }

  // ----- Every spelling is undone -----

  /** The spelling once the literals are resolved. */
  function Resolved(f: nat -> Spelling): nat -> Spelling {
    (n: nat) => if f(n).form.Literal? then f(n).(form := Newline) else f(n)
  }

  lemma {:induction false} ResolvedPermits(k: nat, t: string, f: nat -> Spelling)
    requires Permits(k, t, f)
    ensures Permits(k, t, Resolved(f))
    decreases |t|
  {
    if t != "" {
      ResolvedPermits(Seen(k, t[0]), t[1..], f);
    }
  }

  lemma NothingHere(c: char, s: string)
    requires c != '\\' || s == "" || s[0] != 'n'
    ensures ReplaceAll([c] + s, "\\n", "\n") == [c] + ReplaceAll(s, "\\n", "\n")
  {
    assert ([c] + s)[1..] == s;
    assert "\\n"[0] == '\\' && "\\n"[1] == 'n';
  }

  lemma LiteralHere(s: string)
    ensures ReplaceAll("\\n" + s, "\\n", "\n") == "\n" + ReplaceAll(s, "\\n", "\n")
  {
    assert ("\\n" + s)[2..] == s;
  }

  lemma {:induction false} PaddingStays(pad: string, s: string)
    requires IsPadding(pad)
    ensures ReplaceAll(pad + s, "\\n", "\n") == pad + ReplaceAll(s, "\\n", "\n")
  {
    if pad == "" {
      assert pad + s == s && pad + ReplaceAll(s, "\\n", "\n") == ReplaceAll(s, "\\n", "\n");
    } else {
      PaddingStays(pad[1..], s);
      assert pad[0] in pad;
      Uncons(pad, s);
      NothingHere(pad[0], pad[1..] + s);
      Associative([pad[0]], pad[1..], ReplaceAll(s, "\\n", "\n"));
    }
  }

  lemma FormResolved(form: Form, s: string)
    ensures ReplaceAll(Written(form) + s, "\\n", "\n")
            == (if form.Literal? then "\n" else Written(form)) + ReplaceAll(s, "\\n", "\n")
  {
    if form.Literal? {
      LiteralHere(s);
    } else {
      NothingHere(Written(form)[0], s);
    }
  }

  lemma SpellingResolved(s: Spelling, rest: string)
    requires IsPadding(s.pad)
    ensures ReplaceAll(s.pad + (Written(s.form) + rest), "\\n", "\n")
            == s.pad + ((if s.form.Literal? then "\n" else Written(s.form)) + ReplaceAll(rest, "\\n", "\n"))
  {
    PaddingStays(s.pad, Written(s.form) + rest);
    FormResolved(s.form, rest);
  }

  lemma BlankDoesNotStartWithN(s: string)
    requires Blank(s)
    ensures s == "" || s[0] != 'n'
  {
  }

  lemma {:induction false} LiteralsUnspelled(k: nat, t: string, f: nat -> Spelling, tail: string)
    requires Permits(k, t, f) && Blank(tail) && NoLiteral(t)
    ensures ReplaceAll(Spell(t, f) + tail, "\\n", "\n") == Spell(t, Resolved(f)) + ReplaceAll(tail, "\\n", "\n")
    decreases |t|
  {
    var resolved := ReplaceAll(tail, "\\n", "\n");
    if t == "" {
      assert Spell(t, f) + tail == tail && Spell(t, Resolved(f)) + resolved == resolved;
    } else {
      var rest := Spell(t[1..], f);
      LiteralsUnspelled(Seen(k, t[0]), t[1..], f, tail);
      if t[0] == '\n' {
        var s := f(|t|);
        SpellingResolved(s, rest + tail);
        AssociativeFour(s.pad, Written(s.form), rest, tail);
        AssociativeFour(s.pad, if s.form.Literal? then "\n" else Written(s.form), Spell(t[1..], Resolved(f)), resolved);
      } else {
        PlainCharacter(Seen(k, t[0]), t, f, tail);
        NothingHere(t[0], rest + tail);
        Associative([t[0]], rest, tail);
        Associative([t[0]], Spell(t[1..], Resolved(f)), resolved);
      }
    }
  }

  lemma PlainCharacter(k: nat, t: string, f: nat -> Spelling, tail: string)
    requires t != "" && t[0] != '\n' && Permits(k, t[1..], f) && Blank(tail) && NoLiteral(t)
    ensures var s := Spell(t[1..], f) + tail; t[0] != '\\' || s == "" || s[0] != 'n'
  {
    if t[0] == '\\' {
      assert t[1..] != "" && t[1] == 'n' ==> "\\n" <= t;
      BlankDoesNotStartWithN(tail);
      if t[1..] != "" && t[1] == '\n' {
        var pad := f(|t| - 1).pad;
        assert pad != "" ==> pad[0] in pad;
      }
    }
  }

  lemma AssociativeFour(a: string, b: string, c: string, d: string)
    ensures a + (b + c) + d == a + (b + (c + d))
  {
  }

  lemma {:induction false} ResolvedBlank(s: string)
    requires Blank(s)
    ensures forall c :: c in ReplaceAll(s, "\\n", "\n") ==> IsWhitespace(c)
    decreases |s|
  {
    if s != "" {
      if "\\n" <= s {
        assert s == "\\n" + s[2..];
        LiteralHere(s[2..]);
        ResolvedBlank(s[2..]);
      } else {
        ResolvedBlank(s[1..]);
      }
    }
  }

  lemma {:induction false} TrimmedOff(s: string, white: string)
    requires EndsClean(s) && forall c :: c in white ==> IsWhitespace(c)
    ensures TrimEnd(s + white) == s
    decreases |white|
  {
    if white == "" {
      assert s + white == s;
    } else {
      var n := |white| - 1;
      assert white[n] in white;
      assert (s + white)[..|s| + n] == s + white[..n];
      TrimmedOff(s, white[..n]);
    }
  }

  lemma {:induction false} SpellingEndsClean(t: string, f: nat -> Spelling)
    requires EndsClean(t)
    ensures EndsClean(Spell(t, f)) && (t != "" ==> Spell(t, f) != "")
  {
    if |t| == 1 {
      assert Spell(t, f) == t + "" == t;
    } else if t != "" {
      var rest := Spell(t[1..], f);
      SpellingEndsClean(t[1..], f);
      if t[0] == '\n' {
        CleanEnd(Written(f(|t|).form), rest);
        CleanEnd(f(|t|).pad, Written(f(|t|).form) + rest);
      } else {
        CleanEnd([t[0]], rest);
      }
    }
  }

  lemma CleanEnd(a: string, b: string)
    requires b != "" && EndsClean(b)
    ensures a + b != "" && EndsClean(a + b)
  {
  }

  /** Padding before a line break disappears. */
  lemma {:induction false} PaddingPasses(k: nat, pad: string, s: string)
    requires k <= 5 && IsPadding(pad) && (k == 5 && pad != "" ==> pad[0] != ' ')
    requires s != "" && s[0] != '-' && EndsLine(OnePass(if pad == "" then k else 0, s))
    ensures OnePass(k, pad + s) == OnePass(if pad == "" then k else 0, s)
    decreases |pad|
  {
    if pad == "" {
      assert pad + s == s;
    } else {
      assert pad[0] in pad;
      Uncons(pad, s);
      assert (pad[1..] + s)[0] != '-' by {
        assert pad[1..] != "" ==> pad[1] in pad;
      }
      PaddingPasses(0, pad[1..], s);
      OnePassCons(k, pad[0], pad[1..] + s);
    }
  }

  lemma {:induction false} SpelledDashes(n: nat, t: string, f: nat -> Spelling, k: nat)
    requires Permits(k, t, f)
    ensures Dashes(n) <= Spell(t, f) <==> Dashes(n) <= t
    decreases n
  {
    if n > 0 && t != "" {
      var d := Dashes(n);
      assert d == ['-'] + Dashes(n - 1) && d[0] == '-' && d[1..] == Dashes(n - 1);
      if t[0] == '\n' {
        var s := f(|t|);
        assert s.pad != "" ==> s.pad[0] in s.pad;
        assert Spell(t, f)[0] != '-';
      } else {
        SpelledDashes(n - 1, t[1..], f, Seen(k, t[0]));
        var u := Spell(t, f);
        assert u[0] == t[0] && u[1..] == Spell(t[1..], f);
        PrefixStep(d, u);
        PrefixStep(d, t);
      }
    }
  }

  lemma PrefixStep(p: string, s: string)
    requires p != "" && s != ""
    ensures p <= s <==> p[0] == s[0] && p[1..] <= s[1..]
  {
    if p[0] == s[0] && p[1..] <= s[1..] {
      assert p == [p[0]] + p[1..] && s == [s[0]] + s[1..];
    }
  }

  /** The line break of a spelling, without its padding. */
  lemma BreakPasses(k: nat, form: Form, rest: string, t: string)
    requires !form.Literal? && (form.AfterMarker? ==> k == 5) && (form.BeforeMarker? ==> "-----" <= rest)
    requires OnePass(0, rest) == t
    ensures OnePass(k, Written(form) + rest) == "\n" + t
  {
    OnePassCons(k, Written(form)[0], rest);
  }

  lemma SpellingPasses(k: nat, s: Spelling, rest: string, t: string)
    requires k <= 5 && !s.form.Literal? && Permitted(k, s, rest) && OnePass(0, rest) == t
    ensures OnePass(k, s.pad + (Written(s.form) + rest)) == "\n" + t
  {
    var j := if s.pad == "" then k else 0;
    BreakPasses(j, s.form, rest, t);
    PaddingPasses(k, s.pad, Written(s.form) + rest);
  }

  lemma {:induction false} SpellingUndone(k: nat, t: string, f: nat -> Spelling)
    requires k <= 5 && Permits(k, t, f) && NoSpaceAfter(k, t) && NoSpaceBefore(t) && Tidy(t)
    requires forall n: nat :: !f(n).form.Literal?
    ensures OnePass(k, Spell(t, f)) == t
    decreases |t|
  {
    if t != "" {
      var c, rest := t[0], Spell(t[1..], f);
      SpellingUndone(Seen(k, c), t[1..], f);
      FiveDashes();
      SpelledDashes(5, t[1..], f, Seen(k, c));
      if c == '\n' {
        SpellingPasses(k, f(|t|), rest, t[1..]);
      } else {
        OnePassCons(k, c, rest);
      }
    }
  }

  /** Every permitted spelling of a text in normal form, with anything blank after it, is normalized to that text. */
  lemma SpellingsAreUndone(x: string, t: string, f: nat -> Spelling, tail: string)
    requires CoreNormal(t) && IsSpelling(x, t, f, tail)
    ensures NormalizePem(x) == t + "\n"
  {
    var g := Resolved(f);
    LiteralsUnspelled(0, t, f, tail);
    ResolvedBlank(tail);
    SpellingEndsClean(t, g);
    TrimmedOff(Spell(t, g), ReplaceAll(tail, "\\n", "\n"));
    ResolvedPermits(0, t, f);
    SpellingUndone(0, t, g);
    NormalizeIsCore(x);
  }

  // ----- And nothing else is done -----

  /** The string after n characters is blank, and they resolve to all but the white space at the end. */
  ghost predicate IsCut(x: string, n: nat) {
    var trimmed := TrimEnd(ReplaceAll(x, "\\n", "\n"));
    && n <= |x| && Blank(x[n..])
    && ReplaceAll(x[..n], "\\n", "\n") == trimmed
    && (trimmed == "" ==> n == 0)
  }

  lemma CutAfterLiteral(x: string, m: nat) returns (n: nat)
    requires "\\n" <= x && IsCut(x[2..], m)
    ensures IsCut(x, n)
  {
    var s := ReplaceAll(x[2..], "\\n", "\n");
    assert x == "\\n" + x[2..];
    LiteralHere(x[2..]);
    TrimEndCons('\n', s);
    if TrimEnd(s) == "" {
      assert m == 0 && x[2..][0..] == x[2..];
      assert x[..0] == "" && x[0..] == x;
      n := 0;
    } else {
      n := m + 2;
      assert x[..n] == "\\n" + x[2..][..m] && x[n..] == x[2..][m..];
      LiteralHere(x[2..][..m]);
    }
  }

  lemma CutAfterCharacter(x: string, m: nat) returns (n: nat)
    requires x != "" && !("\\n" <= x) && IsCut(x[1..], m)
    ensures IsCut(x, n)
  {
    var s := ReplaceAll(x[1..], "\\n", "\n");
    assert ReplaceAll(x, "\\n", "\n") == [x[0]] + s;
    TrimEndCons(x[0], s);
    if TrimEnd(s) == "" && IsWhitespace(x[0]) {
      assert m == 0 && x[1..][0..] == x[1..];
      assert x[..0] == "" && x[0..] == x;
      n := 0;
    } else {
      n := m + 1;
      CutLater(x, m);
    }
  }

  lemma CutLater(x: string, m: nat)
    requires x != "" && !("\\n" <= x) && m <= |x| - 1
    ensures ReplaceAll(x[..m + 1], "\\n", "\n") == [x[0]] + ReplaceAll(x[1..][..m], "\\n", "\n")
    ensures x[m + 1..] == x[1..][m..]
  {
    assert x[..m + 1][1..] == x[1..][..m];
    assert "\\n" <= x[..m + 1] ==> "\\n" <= x;
  }

  /** What the trimming at the end removes has been blank. */
  lemma {:induction false} CutTail(x: string) returns (n: nat)
    ensures IsCut(x, n)
    decreases |x|
  {
    if x == "" {
      n := 0;
    } else if "\\n" <= x {
      n := CutTail(x[2..]);
      n := CutAfterLiteral(x, n);
    } else {
      n := CutTail(x[1..]);
      n := CutAfterCharacter(x, n);
    }
  }

  lemma {:induction false} SpellAgrees(k: nat, t: string, f: nat -> Spelling, g: nat -> Spelling)
    requires forall n: nat :: n <= |t| ==> f(n) == g(n)
    ensures Spell(t, f) == Spell(t, g) && (Permits(k, t, f) <==> Permits(k, t, g))
    decreases |t|
  {
    if t != "" {
      SpellAgrees(Seen(k, t[0]), t[1..], f, g);
    }
  }

  function Respelled(f: nat -> Spelling, at: nat, s: Spelling): nat -> Spelling {
    (n: nat) => if n == at then s else f(n)
  }

  /** One more line in front. */
  lemma BreakSpelled(k: nat, t: string, f: nat -> Spelling, s: Spelling) returns (g: nat -> Spelling)
    requires Permits(0, t, f) && Permitted(k, s, t)
    ensures Permits(k, "\n" + t, g) && Spell("\n" + t, g) == s.pad + (Written(s.form) + Spell(t, f))
  {
    g := Respelled(f, |t| + 1, s);
    SpellAgrees(0, t, f, g);
    assert ("\n" + t)[1..] == t;
  }

  /** White space at the end of the first line. */
  lemma PaddingSpelled(k: nat, c: char, t: string, f: nat -> Spelling) returns (g: nat -> Spelling)
    requires IsWhitespace(c) && c != '\n' && !(c == ' ' && k == 5) && t != "" && t[0] == '\n' && Permits(0, t, f)
    ensures Permits(k, t, g) && Spell(t, g) == [c] + Spell(t, f)
  {
    var s := f(|t|);
    var rest := Spell(t[1..], f);
    g := Respelled(f, |t|, s.(pad := [c] + s.pad));
    SpellAgrees(0, t[1..], f, g);
    Associative([c], s.pad, Written(s.form) + rest);
  }

  lemma CharacterSpelled(k: nat, c: char, t: string, f: nat -> Spelling)
    requires c != '\n' && Permits(Seen(k, c), t, f)
    ensures Permits(k, [c] + t, f) && Spell([c] + t, f) == [c] + Spell(t, f)
  {
    assert ([c] + t)[1..] == t;
  }

  lemma {:induction false} DashesPass(k: nat, n: nat, s: string)
    requires Dashes(n) <= s
    ensures Dashes(n) <= OnePass(k, s)
    decreases n
  {
    if n > 0 {
      var d := Dashes(n);
      assert d == ['-'] + Dashes(n - 1) && d[0] == '-' && d[1..] == Dashes(n - 1);
      assert s == [s[0]] + s[1..];
      PrefixStep(d, s);
      DashesPass(Seen(k, '-'), n - 1, s[1..]);
      OnePassCons(k, '-', s[1..]);
      assert ([s[0]] + OnePass(Seen(k, '-'), s[1..]))[1..] == OnePass(Seen(k, '-'), s[1..]);
      PrefixStep(d, OnePass(k, s));
    }
  }

  lemma OnePassKeepsEnd(k: nat, s: string)
    requires EndsClean(s) && s != ""
    ensures OnePass(k, s) != ""
  {
    BreakAfterBreaks(k, s);
    BrokenKeepsEnd(s, BreakAfter(k, s));
    BreakBeforeBreaks(BreakAfter(k, s));
    BrokenKeepsEnd(BreakAfter(k, s), BreakBefore(BreakAfter(k, s)));
    TrimLinesKeepsEnd(BreakBefore(BreakAfter(k, s)));
  }

  /** The first character of the text, all that follows being spelled by f. */
  lemma FirstSpelled(k: nat, c: char, s: string, f: nat -> Spelling) returns (g: nat -> Spelling)
    requires k <= 5 && EndsClean([c] + s) && Permits(Seen(k, c), OnePass(Seen(k, c), s), f)
    ensures Permits(k, OnePass(k, [c] + s), g)
    ensures Spell(OnePass(k, [c] + s), g) == [c] + Spell(OnePass(Seen(k, c), s), f)
  {
    var rest := OnePass(Seen(k, c), s);
    OnePassCons(k, c, s);
    if Breaks(k, c, s) {
      var form := if c == '\n' then Newline else if k == 5 then AfterMarker else BeforeMarker;
      FiveDashes();
      if form.BeforeMarker? {
        DashesPass(0, 5, s);
      }
      g := BreakSpelled(k, rest, f, Spelling("", form));
      assert "" + (Written(form) + Spell(rest, f)) == [c] + Spell(rest, f);
    } else if IsWhitespace(c) && EndsLine(rest) {
      SomethingFollows(Seen(k, c), c, s);
      g := PaddingSpelled(k, c, rest, f);
    } else {
      CharacterSpelled(k, c, rest, f);
      g := f;
    }
  }

  lemma SomethingFollows(k: nat, c: char, s: string)
    requires EndsClean([c] + s) && IsWhitespace(c)
    ensures OnePass(k, s) != ""
  {
    assert s != "" && EndsClean(s);
    OnePassKeepsEnd(k, s);
  }

  /** Whatever resolves to a string that does not end in white space spells what the rewrites make of it. */
  lemma {:induction false} SpellingFound(k: nat, y: string) returns (f: nat -> Spelling)
    requires k <= 5 && EndsClean(ReplaceAll(y, "\\n", "\n"))
    ensures var t := OnePass(k, ReplaceAll(y, "\\n", "\n")); Permits(k, t, f) && y == Spell(t, f)
    decreases |y|
  {
    if y == "" {
      f := (n: nat) => Spelling("", Newline);
    } else if "\\n" <= y {
      var s := ReplaceAll(y[2..], "\\n", "\n");
      assert y == "\\n" + y[2..];
      LiteralHere(y[2..]);
      RestEndsClean('\n', s);
      var rest := SpellingFound(0, y[2..]);
      OnePassCons(k, '\n', s);
      f := BreakSpelled(k, OnePass(0, s), rest, Spelling("", Literal));
      assert "" + ("\\n" + y[2..]) == y;
    } else {
      var s := ReplaceAll(y[1..], "\\n", "\n");
      assert y == [y[0]] + y[1..];
      RestEndsClean(y[0], s);
      var rest := SpellingFound(Seen(k, y[0]), y[1..]);
      f := FirstSpelled(k, y[0], s, rest);
    }
  }

  lemma RestEndsClean(c: char, s: string)
    requires EndsClean([c] + s)
    ensures EndsClean(s)
  {
    assert s != "" ==> ([c] + s)[|s|] == s[|s| - 1];
  }

  /** Every string is a permitted spelling of what it is normalized to. */
  lemma EveryStringIsASpelling(x: string) returns (f: nat -> Spelling, tail: string)
    ensures CoreNormal(Core(x)) && NormalizePem(x) == Core(x) + "\n" && IsSpelling(x, Core(x), f, tail)
  {
    NormalizeIsCore(x);
    var n := CutTail(x);
    TrimEndKeeps(ReplaceAll(x, "\\n", "\n"));
    f := SpellingFound(0, x[..n]);
    tail := x[n..];
  }

  /**
   The normalizer, by its inputs: a string is normalized to a text exactly when the text is in normal form and
   the string is a permitted spelling of it with anything blank after it.
   */
  lemma NormalizesExactlySpellings(x: string, t: string)
    ensures NormalizePem(x) == t + "\n" <==>
        CoreNormal(t) && exists f: nat -> Spelling, tail: string :: IsSpelling(x, t, f, tail)
  {
    if NormalizePem(x) == t + "\n" {
      var f, tail := EveryStringIsASpelling(x);
      assert (t + "\n")[..|t|] == t && (Core(x) + "\n")[..|Core(x)|] == Core(x);
    }
    if CoreNormal(t) {
      if f: nat -> Spelling, tail: string :| IsSpelling(x, t, f, tail) {
        SpellingsAreUndone(x, t, f, tail);
      }
    }
  }
}

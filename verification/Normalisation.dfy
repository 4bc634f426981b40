/** `KnowledgeIngestionService.normalize_text` (backend/app/services/knowledge/ingestion.py). */
module Normalisation {
  import opened Text

  predicate IsBlank(c: char) {
    c == ' ' || c == '\t'
  }

  /** `re.sub(r"[ \t]+", " ", s)`: the last blank of every run stays, as a space. */
  function CollapseBlanks(s: string): (r: string)
    ensures s != "" ==> r != "" && r[0] == if IsBlank(s[0]) then ' ' else s[0]
  {
    if s == "" then ""
    else if !IsBlank(s[0]) then [s[0]] + CollapseBlanks(s[1..])
    else if |s| > 1 && IsBlank(s[1]) then CollapseBlanks(s[1..])
    else " " + CollapseBlanks(s[1..])
  }

  predicate TripleAt(s: string, i: int) {
    0 <= i && i + 2 < |s| && s[i] == '\n' && s[i + 1] == '\n' && s[i + 2] == '\n'
  }

  /** `re.sub(r"\n{3,}", "\n\n", s)`: the last two line feeds of every long run stay. */
  function CollapseNewlines(s: string): (r: string)
    ensures s != "" ==> r != "" && r[0] == s[0]
  {
    if s == "" then ""
    else if TripleAt(s, 0) then CollapseNewlines(s[1..])
    else [s[0]] + CollapseNewlines(s[1..])
  }

  function Normalize(s: string): string {
    Strip(CollapseNewlines(CollapseBlanks(UnixNewlines(s))))
  }

  // ---------------------------------------------------------------- normal forms

  predicate NoDoubleSpace(s: string) {
    forall i | 0 <= i < |s| - 1 :: !(s[i] == ' ' && s[i + 1] == ' ')
  }

  ghost predicate NoTriple(s: string) {
    forall i :: !TripleAt(s, i)
  }

  predicate Trimmed(s: string) {
    s != "" ==> !IsSpace(s[0]) && !IsSpace(s[|s| - 1])
  }

  /** No CR, no tab, no double space, no triple line feed and no outer whitespace. */
  ghost predicate Clean(s: string) {
    '\r' !in s && '\t' !in s && NoDoubleSpace(s) && NoTriple(s) && Trimmed(s)
  }

  lemma {:induction false} CollapseBlanksClean(s: string)
    requires '\r' !in s
    ensures var r := CollapseBlanks(s); '\r' !in r && '\t' !in r && NoDoubleSpace(r)
  {
    if s != "" {
      CollapseBlanksClean(s[1..]);
    }
  }

  lemma {:induction false} CollapseNewlinesClean(s: string)
    requires '\r' !in s && '\t' !in s && NoDoubleSpace(s)
    ensures var r := CollapseNewlines(s); '\r' !in r && '\t' !in r && NoDoubleSpace(r) && NoTriple(r)
  {
    if s != "" {
      var rest := CollapseNewlines(s[1..]);
      CollapseNewlinesClean(s[1..]);
      if !TripleAt(s, 0) {
        var r := [s[0]] + rest;
        forall i ensures !TripleAt(r, i) {
          assert i > 0 && TripleAt(r, i) ==> TripleAt(rest, i - 1);
        }
      }
    }
  }

  lemma WindowClean(s: string, lo: nat, hi: nat)
    requires lo <= hi <= |s| && '\r' !in s && '\t' !in s && NoDoubleSpace(s) && NoTriple(s)
    ensures var r := s[lo..hi]; '\r' !in r && '\t' !in r && NoDoubleSpace(r) && NoTriple(r)
  {
    var r := s[lo..hi];
    forall i ensures !TripleAt(r, i) {
      assert TripleAt(r, i) ==> TripleAt(s, lo + i);
    }
  }

  lemma NormalizeClean(s: string)
    ensures Clean(Normalize(s))
  {
    CollapseBlanksClean(UnixNewlines(s));
    var t := CollapseBlanks(UnixNewlines(s));
    CollapseNewlinesClean(t);
    var u := CollapseNewlines(t);
    if Lead(u) < Trail(u) {
      WindowClean(u, Lead(u), Trail(u));
    }
  }

  lemma {:induction false} CollapseBlanksIdentity(s: string)
    requires '\t' !in s && NoDoubleSpace(s)
    ensures CollapseBlanks(s) == s
  {
    if s != "" {
      CollapseBlanksIdentity(s[1..]);
      assert s == [s[0]] + s[1..];
    }
  }

  lemma {:induction false} CollapseNewlinesIdentity(s: string)
    requires NoTriple(s)
    ensures CollapseNewlines(s) == s
  {
    if s != "" {
      forall i ensures !TripleAt(s[1..], i) {
        assert TripleAt(s[1..], i) ==> TripleAt(s, i + 1);
      }
      CollapseNewlinesIdentity(s[1..]);
      assert s == [s[0]] + s[1..];
    }
  }

  lemma CleanIsFixed(s: string)
    requires Clean(s)
    ensures Normalize(s) == s
  {
    UnixNewlinesIdentity(s);
    CollapseBlanksIdentity(s);
    CollapseNewlinesIdentity(s);
    if s != "" {
      StripUnique(s, 0, |s|);
    }
  }

  /** The fixed points of normalisation are exactly the clean texts. */
  lemma NormalizeFixedPoints(s: string)
    ensures Normalize(s) == s <==> Clean(s)
  {
    NormalizeClean(s);
    if Clean(s) {
      CleanIsFixed(s);
    }
  }

  /** Normalising twice, as the ingest path does, changes nothing. */
  lemma NormalizeIdempotent(s: string)
    ensures Normalize(Normalize(s)) == Normalize(s)
  {
    NormalizeClean(s);
    CleanIsFixed(Normalize(s));
  }

  // ---------------------------------------------------------------- what becomes of a run

  predicate Blanks(s: string) {
    s != "" && forall i | 0 <= i < |s| :: s[i] == ' ' || s[i] == '\t'
  }

  lemma {:induction false} BlanksConcat(a: string, b: string)
    requires a == "" || b == "" || !IsBlank(a[|a| - 1]) || !IsBlank(b[0])
    ensures CollapseBlanks(a + b) == CollapseBlanks(a) + CollapseBlanks(b)
  {
    if a == "" {
      assert a + b == b;
    } else {
      assert (a + b)[1..] == a[1..] + b;
      BlanksConcat(a[1..], b);
      ConcatAssoc([if IsBlank(a[0]) then ' ' else a[0]], CollapseBlanks(a[1..]), CollapseBlanks(b));
    }
  }

  lemma {:induction false} BlankRun(run: string)
    requires Blanks(run)
    ensures CollapseBlanks(run) == " "
  {
    if |run| > 1 {
      BlankRun(run[1..]);
    }
  }

  lemma {:induction false} NewlinesConcat(a: string, b: string)
    requires a == "" || b == "" || a[|a| - 1] != '\n' || b[0] != '\n'
    ensures CollapseNewlines(a + b) == CollapseNewlines(a) + CollapseNewlines(b)
  {
    if a == "" {
      assert a + b == b;
    } else {
      assert (a + b)[1..] == a[1..] + b;
      assert TripleAt(a + b, 0) <==> TripleAt(a, 0);
      NewlinesConcat(a[1..], b);
      ConcatAssoc([a[0]], CollapseNewlines(a[1..]), CollapseNewlines(b));
    }
  }

  function Newlines(n: nat): string {
    if n == 0 then "" else "\n" + Newlines(n - 1)
  }

  lemma {:induction false} NewlineRun(n: nat)
    ensures |Newlines(n)| == n && forall i | 0 <= i < n :: Newlines(n)[i] == '\n'
    ensures CollapseNewlines(Newlines(n)) == Newlines(if n < 2 then n else 2)
  {
    if n > 0 {
      NewlineRun(n - 1);
      assert Newlines(n)[1..] == Newlines(n - 1);
    }
  }

  lemma JoinClean(a: string, gap: string, b: string)
    requires Clean(a) && Clean(b) && a != "" && b != "" && (gap == " " || gap == "\n" || gap == "\n\n")
    ensures Clean(a + gap + b)
  {
    var s, upto := a + gap + b, |a| + |gap|;
    assert s[|a| - 1] == a[|a| - 1] && s[upto] == b[0];
    forall i ensures !TripleAt(s, i) {
      assert i + 2 < |a| ==> (TripleAt(s, i) ==> TripleAt(a, i));
      assert upto <= i ==> (TripleAt(s, i) ==> TripleAt(b, i - upto));
    }
  }

  /** Between two clean texts any run of spaces and tabs becomes one space. */
  lemma WordGap(a: string, run: string, b: string)
    requires Clean(a) && Clean(b) && a != "" && b != "" && Blanks(run)
    ensures Normalize(a + run + b) == a + " " + b
  {
    UnixNewlinesIdentity(a + run + b);
    BlanksConcat(a + run, b);
    BlanksConcat(a, run);
    BlankRun(run);
    CollapseBlanksIdentity(a);
    CollapseBlanksIdentity(b);
    JoinClean(a, " ", b);
    Finished(a + " " + b);
  }

  lemma Finished(s: string)
    requires Clean(s)
    ensures Strip(CollapseNewlines(s)) == s
  {
    CollapseNewlinesIdentity(s);
    Unstripped(s);
  }

  /** Between two clean texts one line feed or two stay as they are, and a longer run of them becomes two. */
  lemma ParagraphGap(a: string, n: nat, b: string)
    requires Clean(a) && Clean(b) && a != "" && b != "" && n > 0
    ensures Normalize(a + Newlines(n) + b) == a + (if n == 1 then "\n" else "\n\n") + b
  {
    var s, gap := a + Newlines(n) + b, if n == 1 then "\n" else "\n\n";
    LongGap(a, n, b);
    UnixNewlinesIdentity(s);
    CollapseBlanksIdentity(s);
    GapCollapses(a, n, b);
    JoinClean(a, gap, b);
    Unstripped(a + gap + b);
  }

  lemma Unstripped(s: string)
    requires Clean(s)
    ensures Strip(s) == s
  {
    if s != "" {
      StripUnique(s, 0, |s|);
    }
  }

  lemma GapCollapses(a: string, n: nat, b: string)
    requires Clean(a) && Clean(b) && a != "" && b != "" && n > 0
    ensures CollapseNewlines(a + Newlines(n) + b) == a + (if n == 1 then "\n" else "\n\n") + b
  {
    LongGap(a, n, b);
    NewlinesConcat(a + Newlines(n), b);
    NewlinesConcat(a, Newlines(n));
    ShortGap(n);
    CollapseNewlinesIdentity(a);
    CollapseNewlinesIdentity(b);
  }

  lemma LongGap(a: string, n: nat, b: string)
    requires Clean(a) && Clean(b) && a != "" && b != "" && n > 0
    ensures var s := a + Newlines(n) + b; '\r' !in s && '\t' !in s && NoDoubleSpace(s)
    ensures Newlines(n)[0] == '\n' && Newlines(n) != "" && (a + Newlines(n))[|a + Newlines(n)| - 1] == '\n'
  {
    NewlineRun(n);
  }

  lemma ShortGap(n: nat)
    requires n > 0
    ensures CollapseNewlines(Newlines(n)) == if n == 1 then "\n" else "\n\n"
  {
    NewlineRun(n);
    assert Newlines(1) == "\n" + Newlines(0) && Newlines(2) == "\n" + Newlines(1);
  }

  // ---------------------------------------------------------------- nothing but whitespace is lost

  /** The characters that are not whitespace, in order. */
  function Ink(s: string): string {
    if s == "" then "" else (if IsSpace(s[0]) then "" else [s[0]]) + Ink(s[1..])
  }

  lemma {:induction false} InkConcat(a: string, b: string)
    ensures Ink(a + b) == Ink(a) + Ink(b)
  {
    if a == "" {
      assert a + b == b;
    } else {
      assert (a + b)[1..] == a[1..] + b;
      InkConcat(a[1..], b);
    }
  }

  lemma {:induction false} SpaceHasNoInk(s: string)
    requires forall i | 0 <= i < |s| :: IsSpace(s[i])
    ensures Ink(s) == ""
  {
    if s != "" {
      SpaceHasNoInk(s[1..]);
    }
  }

  lemma {:induction false} ReplaceCrLfKeepsInk(s: string)
    ensures Ink(ReplaceCrLf(s)) == Ink(s)
  {
    if s == "" {
    } else if |s| >= 2 && s[0] == '\r' && s[1] == '\n' {
      ReplaceCrLfKeepsInk(s[2..]);
      assert s[1..][1..] == s[2..];
      InkConcat("\n", ReplaceCrLf(s[2..]));
    } else {
      ReplaceCrLfKeepsInk(s[1..]);
      InkConcat([s[0]], ReplaceCrLf(s[1..]));
    }
  }

  lemma {:induction false} ReplaceCrKeepsInk(s: string)
    ensures Ink(ReplaceCr(s)) == Ink(s)
  {
    if s != "" {
      ReplaceCrKeepsInk(s[1..]);
      assert ReplaceCr(s)[1..] == ReplaceCr(s[1..]);
    }
  }

  lemma {:induction false} CollapseBlanksKeepsInk(s: string)
    ensures Ink(CollapseBlanks(s)) == Ink(s)
  {
    if s != "" {
      CollapseBlanksKeepsInk(s[1..]);
      var c := if IsBlank(s[0]) then ' ' else s[0];
      assert ([c] + CollapseBlanks(s[1..]))[1..] == CollapseBlanks(s[1..]);
    }
  }

  lemma {:induction false} CollapseNewlinesKeepsInk(s: string)
    ensures Ink(CollapseNewlines(s)) == Ink(s)
  {
    if s != "" {
      CollapseNewlinesKeepsInk(s[1..]);
      assert ([s[0]] + CollapseNewlines(s[1..]))[1..] == CollapseNewlines(s[1..]);
    }
  }

  lemma InkBetweenSpace(a: string, b: string, c: string)
    requires forall i | 0 <= i < |a| :: IsSpace(a[i])
    requires forall i | 0 <= i < |c| :: IsSpace(c[i])
    ensures Ink(a + b + c) == Ink(b)
  {
    SpaceHasNoInk(a);
    SpaceHasNoInk(c);
    InkConcat(a, b);
    InkConcat(a + b, c);
  }

  lemma StripKeepsInk(s: string)
    ensures Ink(Strip(s)) == Ink(s)
  {
    var lo, hi := Lead(s), Trail(s);
    if lo < hi {
      InkBetweenSpace(s[..lo], s[lo..hi], s[hi..]);
      assert s[..lo] + s[lo..hi] + s[hi..] == s;
    } else {
      SpaceHasNoInk(s);
    }
  }

  /** Normalisation keeps every character that is not whitespace, in order. */
  lemma NormalizeKeepsInk(s: string)
    ensures Ink(Normalize(s)) == Ink(s)
  {
    ReplaceCrLfKeepsInk(s);
    ReplaceCrKeepsInk(ReplaceCrLf(s));
    var t := UnixNewlines(s);
    CollapseBlanksKeepsInk(t);
    CollapseNewlinesKeepsInk(CollapseBlanks(t));
    StripKeepsInk(CollapseNewlines(CollapseBlanks(t)));
  }
}

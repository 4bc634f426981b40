/**
 Python string operations that the services rely on: whitespace, `strip`, `find`, `rfind`
 and the two `replace` calls that turn every line ending into a line feed.
 */
module Text {

  lemma ConcatAssoc<T>(a: seq<T>, b: seq<T>, c: seq<T>)
    ensures a + (b + c) == (a + b) + c
  {
  }

  /** Python's `str.isspace` code points, which `strip` removes. */
  predicate IsSpace(c: char) {
    '\t' <= c <= '\r' || '\U{1c}' <= c <= ' ' || c == '\U{85}' || c == '\U{a0}' || c == '\U{1680}' ||
    '\U{2000}' <= c <= '\U{200a}' || c == '\U{2028}' || c == '\U{2029}' || c == '\U{202f}' ||
    c == '\U{205f}' || c == '\U{3000}'
  }

  /** All of them. */
  lemma IsSpaceExactly(c: char)
    ensures IsSpace(c) <==>
            c in "\t\n\U{b}\U{c}\r\U{1c}\U{1d}\U{1e}\U{1f} \U{85}\U{a0}\U{1680}\U{2000}\U{2001}\U{2002}\U{2003}" ||
            c in "\U{2004}\U{2005}\U{2006}\U{2007}\U{2008}\U{2009}\U{200a}\U{2028}\U{2029}\U{202f}\U{205f}\U{3000}"
  {
  }

  /** The first position from `i` on that `strip` keeps, or the length when there is none. */
  function LeadFrom(s: string, i: nat): (n: nat)
    requires i <= |s|
    ensures i <= n <= |s|
    ensures forall j | i <= j < n :: IsSpace(s[j])
    ensures n < |s| ==> !IsSpace(s[n])
    decreases |s| - i
  {
    if i == |s| || !IsSpace(s[i]) then i else LeadFrom(s, i + 1)
  }

  /** The position after the last character before `i` that `strip` keeps, or zero when there is none. */
  function TrailTo(s: string, i: nat): (n: nat)
    requires i <= |s|
    ensures n <= i
    ensures forall j | n <= j < i :: IsSpace(s[j])
    ensures n > 0 ==> !IsSpace(s[n - 1])
  {
    if i == 0 || !IsSpace(s[i - 1]) then i else TrailTo(s, i - 1)
  }

  function Lead(s: string): nat {
    LeadFrom(s, 0)
  }

  function Trail(s: string): nat {
    TrailTo(s, |s|)
  }

  function Strip(s: string): (r: string)
    ensures r != "" ==> !IsSpace(r[0]) && !IsSpace(r[|r| - 1])
    ensures r == "" <==> forall i | 0 <= i < |s| :: IsSpace(s[i])
  {
    if Lead(s) < Trail(s) then s[Lead(s)..Trail(s)] else ""
  }

  /** Where the stripped content lies. */
  lemma StripShape(s: string) returns (a: nat, b: nat)
    requires Strip(s) != ""
    ensures a < b <= |s| && Strip(s) == s[a..b] && !IsSpace(s[a]) && !IsSpace(s[b - 1])
    ensures (forall i | 0 <= i < a :: IsSpace(s[i])) && (forall i | b <= i < |s| :: IsSpace(s[i]))
  {
    a, b := Lead(s), Trail(s);
  }

  /** Stripping finds the one window that starts and ends with a kept character and drops only whitespace. */
  lemma StripUnique(s: string, lo: nat, hi: nat)
    requires lo < hi <= |s|
    requires forall i | 0 <= i < lo :: IsSpace(s[i])
    requires forall i | hi <= i < |s| :: IsSpace(s[i])
    requires !IsSpace(s[lo]) && !IsSpace(s[hi - 1])
    ensures Strip(s) == s[lo..hi] && Lead(s) == lo && Trail(s) == hi
  {
  }

  /** `s.rfind(c, lo, hi)` */
  function RFind(s: string, c: char, lo: nat, hi: nat): (r: int)
    requires hi <= |s|
    ensures r == -1 || (lo <= r < hi && s[r] == c)
    ensures forall i | lo <= i < hi && r < i :: s[i] != c
    decreases hi
  {
    if hi <= lo then -1 else if s[hi - 1] == c then hi - 1 else RFind(s, c, lo, hi - 1)
  }

  predicate OccursAt(s: string, sub: string, i: int) {
    0 <= i && i + |sub| <= |s| && s[i..i + |sub|] == sub
  }

  /** `s.find(sub, lo, hi)` */
  function Find(s: string, sub: string, lo: nat, hi: nat): (r: int)
    requires hi <= |s|
    ensures r == -1 || (lo <= r && r + |sub| <= hi && OccursAt(s, sub, r))
    ensures forall i | lo <= i && i + |sub| <= hi && OccursAt(s, sub, i) :: 0 <= r <= i
    decreases hi - lo
  {
    if lo + |sub| > hi then -1
    else if OccursAt(s, sub, lo) then lo
    else if lo == hi then -1
    else Find(s, sub, lo + 1, hi)
  }

  /** `s.replace("\r\n", "\n")` */
  function ReplaceCrLf(s: string): string {
    if s == "" then ""
    else if |s| >= 2 && s[0] == '\r' && s[1] == '\n' then "\n" + ReplaceCrLf(s[2..])
    else [s[0]] + ReplaceCrLf(s[1..])
  }

  /** `s.replace("\r", "\n")` */
  function ReplaceCr(s: string): (r: string)
    ensures |r| == |s|
    ensures forall i | 0 <= i < |s| :: r[i] == if s[i] == '\r' then '\n' else s[i]
  {
    seq(|s|, i requires 0 <= i < |s| => if s[i] == '\r' then '\n' else s[i])
  }

  /** Every CR LF pair, lone CR and lone LF becomes one LF. */
  function UnixNewlines(s: string): (r: string)
    ensures '\r' !in r
  {
    ReplaceCr(ReplaceCrLf(s))
  }

  /** Whether a cut between `a` and `b` falls inside a CR LF pair. */
  predicate SplitsCrLf(a: string, b: string) {
    a != "" && b != "" && a[|a| - 1] == '\r' && b[0] == '\n'
  }

  lemma {:induction false} ReplaceCrLfConcat(a: string, b: string)
    requires !SplitsCrLf(a, b)
    ensures ReplaceCrLf(a + b) == ReplaceCrLf(a) + ReplaceCrLf(b)
  {
    if a == "" {
      assert a + b == b;
    } else if |a| >= 2 && a[0] == '\r' && a[1] == '\n' {
      ReplaceCrLfConcat(a[2..], b);
      assert (a + b)[2..] == a[2..] + b;
      ConcatAssoc("\n", ReplaceCrLf(a[2..]), ReplaceCrLf(b));
    } else {
      ReplaceCrLfConcat(a[1..], b);
      assert (a + b)[1..] == a[1..] + b;
      assert !(|a + b| >= 2 && (a + b)[0] == '\r' && (a + b)[1] == '\n');
      ConcatAssoc([a[0]], ReplaceCrLf(a[1..]), ReplaceCrLf(b));
    }
  }

  lemma ReplaceCrConcat(a: string, b: string)
    ensures ReplaceCr(a + b) == ReplaceCr(a) + ReplaceCr(b)
  {
  }

  /**
   Converting a text in two halves differs from converting it whole exactly by the one LF that a
   cut inside a CR LF pair leaves behind.
   */
  lemma {:induction false} UnixNewlinesConcat(a: string, b: string)
    ensures !SplitsCrLf(a, b) ==> UnixNewlines(a + b) == UnixNewlines(a) + UnixNewlines(b)
    ensures SplitsCrLf(a, b) ==> |UnixNewlines(a + b)| + 1 == |UnixNewlines(a) + UnixNewlines(b)|
  {
    if SplitsCrLf(a, b) {
      var a', b' := a[..|a| - 1], b[1..];
      assert a == a' + "\r" && a + b == a' + ("\r\n" + b');
      ReplaceCrLfConcat(a', "\r");
      ReplaceCrLfConcat(a', "\r\n" + b');
      assert ("\r\n" + b')[2..] == b';
      assert ReplaceCrLf("\r\n" + b') == "\n" + ReplaceCrLf(b');
      assert ReplaceCrLf(b) == "\n" + ReplaceCrLf(b');
      assert ReplaceCrLf("\r") == "\r" + ReplaceCrLf("");
    } else {
      ReplaceCrLfConcat(a, b);
      ReplaceCrConcat(ReplaceCrLf(a), ReplaceCrLf(b));
    }
  }

  /** A CR LF pair becomes one LF, and so does a CR that no LF follows. */
  lemma LineEnds(a: string, b: string)
    ensures UnixNewlines(a + "\r\n" + b) == UnixNewlines(a) + "\n" + UnixNewlines(b)
    ensures (b != "" ==> b[0] != '\n') ==> UnixNewlines(a + "\r" + b) == UnixNewlines(a) + "\n" + UnixNewlines(b)
    ensures UnixNewlines("") == ""
  {
    UnixNewlinesConcat(a + "\r\n", b);
    UnixNewlinesConcat(a, "\r\n");
    assert "\r\n"[2..] == "" && ReplaceCrLf("\r\n") == "\n" + ReplaceCrLf("");
    if b != "" ==> b[0] != '\n' {
      UnixNewlinesConcat(a + "\r", b);
      UnixNewlinesConcat(a, "\r");
      assert ReplaceCrLf("\r") == "\r" + ReplaceCrLf("\r"[1..]);
    }
  }

  /** Text without a CR is left alone. */
  lemma {:induction false} UnixNewlinesIdentity(s: string)
    requires '\r' !in s
    ensures UnixNewlines(s) == s
  {
    if s != "" {
      UnixNewlinesIdentity(s[1..]);
      assert s == [s[0]] + s[1..];
    }
  }
}

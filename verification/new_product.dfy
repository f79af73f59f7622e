/** The slug the new-product form derives from a product name:
    lower-case, every run of characters outside `[a-z0-9]` replaced by one
    `-`, then a leading and a trailing `-` removed. */
module Slug {
  import opened Text
  import Seqs

  predicate IsSlugChar(c: char) {
    'a' <= c <= 'z' || '0' <= c <= '9'
  }

  /** An ASCII letter or digit of either case. */
  predicate IsAsciiAlnum(c: char) {
    'a' <= c <= 'z' || 'A' <= c <= 'Z' || '0' <= c <= '9'
  }

  /** Lower-casing turns exactly the ASCII letters and digits into slug characters. */
  lemma LowerSlugChar(c: char)
    ensures IsSlugChar(Lower(c)) <==> IsAsciiAlnum(c)
  {
  }

  /** The length of the run of characters outside `[a-z0-9]` that starts `s`. */
  function RunLength(s: string): (n: nat)
    ensures n <= |s|
    ensures s != [] && !IsSlugChar(s[0]) ==> n > 0
  {
    if s != [] && !IsSlugChar(s[0]) then 1 + RunLength(s[1..]) else 0
  }

  /** The run is maximal: everything before `RunLength(s)` is outside
      `[a-z0-9]` and the character after it, if any, is inside. */
  lemma {:induction false} RunLengthFacts(s: string)
    ensures forall i :: 0 <= i < RunLength(s) ==> !IsSlugChar(s[i])
    ensures RunLength(s) < |s| ==> IsSlugChar(s[RunLength(s)])
  {
    if s != [] && !IsSlugChar(s[0]) {
      RunLengthFacts(s[1..]);
      assert forall i :: 0 < i < |s| ==> s[i] == s[1..][i - 1];
    }
  }

  /** A run of separators followed by a slug character (or by nothing) has
      exactly the separators' length. */
  lemma {:induction false} RunLengthOf(u: string, v: string)
    requires forall i :: 0 <= i < |u| ==> !IsSlugChar(u[i])
    requires v == [] || IsSlugChar(v[0])
    ensures RunLength(u + v) == |u|
  {
    if u != [] {
      assert (u + v)[1..] == u[1..] + v;
      RunLengthOf(u[1..], v);
    } else {
      assert u + v == v;
    }
  }

  /** A run that starts inside `x` ends inside `x` when `x` ends with a slug character. */
  lemma {:induction false} RunLengthAppend(x: string, y: string)
    requires x != [] && IsSlugChar(x[|x| - 1])
    ensures RunLength(x + y) == RunLength(x) < |x|
  {
    if !IsSlugChar(x[0]) {
      assert (x + y)[1..] == x[1..] + y;
      RunLengthAppend(x[1..], y);
    }
  }

  /** `s.replace(/[^a-z0-9]+/g, '-')`. */
  function CollapseRuns(s: string): (r: string)
    ensures |r| <= |s|
    decreases |s|
  {
    if s == [] then []
    else if IsSlugChar(s[0]) then [s[0]] + CollapseRuns(s[1..])
    else "-" + CollapseRuns(s[RunLength(s)..])
  }

  /** `s.replace(/(^-|-$)/g, '')`: a leading `-` and a trailing `-` removed,
      one each. */
  function TrimDashes(s: string): (r: string)
    ensures |r| <= |s|
  {
    DropTrailingDash(DropLeadingDash(s))
  }

  function DropLeadingDash(s: string): (r: string)
    ensures |r| <= |s|
  {
    if |s| > 0 && s[0] == '-' then s[1..] else s
  }

  function DropTrailingDash(s: string): (r: string)
    ensures |r| <= |s|
  {
    if |s| > 0 && s[|s| - 1] == '-' then s[..|s| - 1] else s
  }

  /** Only slug characters and dashes. */
  predicate SlugAlphabet(r: string) {
    forall i :: 0 <= i < |r| ==> IsSlugChar(r[i]) || r[i] == '-'
  }

  /** No two dashes side by side. */
  ghost predicate NoDoubleDash(r: string) {
    forall i, j :: 0 <= i < j < |r| && j == i + 1 ==> r[i] != '-' || r[j] != '-'
  }

  /** A well-formed slug: letters, digits and single dashes, with no dash at
      either end. */
  ghost predicate IsSlugText(r: string) {
    SlugAlphabet(r) && NoDoubleDash(r) && (r != [] ==> r[0] != '-' && r[|r| - 1] != '-')
  }

  /** The letters and digits of a lower-cased string, in order. */
  function Alnums(s: string): string {
    Seqs.Filter(s, IsSlugChar)
  }

  /** The slug `handleInputChange` derives from a product name. */
  function Slugify(name: string): (r: string)
    ensures IsSlugText(r)
    ensures Alnums(r) == Alnums(LowerStr(name))
  {
    var t := LowerStr(name);
    CollapseShape(t);
    CollapseAlnums(t);
    TrimDashesShape(CollapseRuns(t));
    TrimDashes(CollapseRuns(t))
  }

  /** What collapsing produces: slug characters and single dashes, starting
      and ending with a dash exactly when the input starts or ends with a
      separator. */
  lemma {:induction false} CollapseShape(s: string)
    ensures CollapsedWell(s)
    decreases |s|
  {
    if s != [] {
      if IsSlugChar(s[0]) {
        CollapseShape(s[1..]);
        CollapseWordStep(s);
      } else {
        CollapseShape(s[RunLength(s)..]);
        CollapseDashStep(s);
      }
    }
  }

  /** The facts `CollapseShape` states, for one string. */
  ghost predicate CollapsedWell(s: string) {
    var r := CollapseRuns(s);
    && SlugAlphabet(r) && NoDoubleDash(r)
    && (r == [] <==> s == [])
    && (s != [] ==> (r[0] == '-' <==> !IsSlugChar(s[0])))
    && (s != [] ==> (r[|r| - 1] == '-' <==> !IsSlugChar(s[|s| - 1])))
  }

  /** The step of `CollapseShape` for a leading slug character. */
  lemma CollapseWordStep(s: string)
    requires s != [] && IsSlugChar(s[0])
    requires CollapsedWell(s[1..])
    ensures CollapsedWell(s)
  {
    var u := s[1..];
    assert CollapseRuns(s) == [s[0]] + CollapseRuns(u);
    assert u != [] ==> u[|u| - 1] == s[|s| - 1];
  }

  /** The step of `CollapseShape` for a leading run of separators. */
  lemma CollapseDashStep(s: string)
    requires s != [] && !IsSlugChar(s[0])
    requires CollapsedWell(s[RunLength(s)..])
    ensures CollapsedWell(s)
  {
    var u := s[RunLength(s)..];
    RunLengthEnds(s);
    assert CollapseRuns(s) == "-" + CollapseRuns(u);
    assert u == [] ==> !IsSlugChar(s[|s| - 1]);
    assert u != [] ==> IsSlugChar(u[0]) && u[|u| - 1] == s[|s| - 1];
    DashBeforeCollapsed(s, u);
  }

  /** The two ends of a maximal run of separators. */
  lemma RunLengthEnds(s: string)
    requires s != [] && !IsSlugChar(s[0])
    ensures RunLength(s) == |s| ==> !IsSlugChar(s[|s| - 1])
    ensures RunLength(s) < |s| ==> IsSlugChar(s[RunLength(s)])
  {
    RunLengthFacts(s);
  }

  lemma DashBeforeCollapsed(s: string, u: string)
    requires s != [] && !IsSlugChar(s[0])
    requires CollapseRuns(s) == "-" + CollapseRuns(u)
    requires u == [] ==> !IsSlugChar(s[|s| - 1])
    requires u != [] ==> IsSlugChar(u[0]) && u[|u| - 1] == s[|s| - 1]
    requires CollapsedWell(u)
    ensures CollapsedWell(s)
  {
    var r, c := CollapseRuns(s), CollapseRuns(u);
    assert forall i :: 0 < i < |r| ==> r[i] == c[i - 1];
  }

  /** Dropping a run of separators drops no letter or digit. */
  lemma {:induction false} AlnumsSkipRun(s: string)
    ensures Alnums(s[RunLength(s)..]) == Alnums(s)
  {
    if s != [] && !IsSlugChar(s[0]) {
      AlnumsSkipRun(s[1..]);
      assert s[1..][RunLength(s[1..])..] == s[RunLength(s)..];
    }
  }

  /** Collapsing keeps every letter and digit, in order. */
  lemma {:induction false} CollapseAlnums(s: string)
    ensures Alnums(CollapseRuns(s)) == Alnums(s)
    decreases |s|
  {
    if s != [] {
      if IsSlugChar(s[0]) {
        CollapseAlnums(s[1..]);
        Seqs.FilterAppend([s[0]], CollapseRuns(s[1..]), IsSlugChar);
      } else {
        CollapseAlnums(s[RunLength(s)..]);
        AlnumsSkipRun(s);
        Seqs.FilterAppend("-", CollapseRuns(s[RunLength(s)..]), IsSlugChar);
      }
    }
  }

  /** Trimming one dash from each end of a collapsed string yields a slug and
      drops no letter or digit. */
  lemma TrimDashesShape(s: string)
    requires SlugAlphabet(s) && NoDoubleDash(s)
    ensures IsSlugText(TrimDashes(s))
    ensures Alnums(TrimDashes(s)) == Alnums(s)
  {
    LeadingDashDropped(s);
    TrailingDashDropped(DropLeadingDash(s));
  }

  lemma LeadingDashDropped(s: string)
    requires SlugAlphabet(s) && NoDoubleDash(s)
    ensures SlugAlphabet(DropLeadingDash(s)) && NoDoubleDash(DropLeadingDash(s))
    ensures DropLeadingDash(s) != [] ==> DropLeadingDash(s)[0] != '-'
    ensures Alnums(DropLeadingDash(s)) == Alnums(s)
  {
    if |s| > 0 && s[0] == '-' {
      var a := s[1..];
      assert s == "-" + a;
      assert a != [] ==> a[0] == s[1];
      Seqs.FilterAppend("-", a, IsSlugChar);
    }
  }

  lemma TrailingDashDropped(a: string)
    requires SlugAlphabet(a) && NoDoubleDash(a) && (a != [] ==> a[0] != '-')
    ensures IsSlugText(DropTrailingDash(a))
    ensures Alnums(DropTrailingDash(a)) == Alnums(a)
  {
    if |a| > 0 && a[|a| - 1] == '-' {
      var b := a[..|a| - 1];
      assert a == b + "-";
      assert b != [] ==> b[|b| - 1] == a[|a| - 2];
      Seqs.FilterAppend(b, "-", IsSlugChar);
    }
  }

  /** Collapsing a string that is already made of slug characters and single
      dashes, and does not end in a dash, changes nothing. */
  lemma {:induction false} CollapseFixed(x: string)
    requires SlugAlphabet(x) && NoDoubleDash(x)
    requires x == [] || x[|x| - 1] != '-'
    ensures CollapseRuns(x) == x
  {
    if x != [] {
      assert x[1..] == [] || x[1..][|x[1..]| - 1] == x[|x| - 1];
      CollapseFixed(x[1..]);
      if !IsSlugChar(x[0]) {
        assert RunLength(x[1..]) == 0;
      }
      assert x == [x[0]] + x[1..];
    }
  }

  /** A slug is its own slug; nothing else is. */
  lemma SlugifyFixedPoints(x: string)
    ensures Slugify(x) == x <==> IsSlugText(x)
  {
    if IsSlugText(x) {
      SlugOfSlug(x);
    }
  }

  lemma SlugOfSlug(x: string)
    requires IsSlugText(x)
    ensures TrimDashes(CollapseRuns(LowerStr(x))) == x
  {
    LowerStrFixed(x);
    CollapseFixed(x);
    NoTrimNeeded(x);
  }

  /** Deriving the slug twice gives the same slug as deriving it once. */
  lemma SlugifyIdempotent(name: string)
    ensures Slugify(Slugify(name)) == Slugify(name)
  {
    SlugifyFixedPoints(Slugify(name));
  }

  /** The slug is empty exactly when the name holds no ASCII letter or digit. */
  lemma SlugEmptyIff(name: string)
    ensures Slugify(name) == [] <==> forall i :: 0 <= i < |name| ==> !IsAsciiAlnum(name[i])
  {
    var r := Slugify(name);
    var t := LowerStr(name);
    if r != [] {
      assert r[0] in Alnums(r);
      var i :| 0 <= i < |t| && t[i] == r[0];
      LowerSlugChar(name[i]);
    } else {
      forall i | 0 <= i < |name|
        ensures !IsAsciiAlnum(name[i])
      {
        LowerSlugChar(name[i]);
        assert t[i] !in Alnums(t);
      }
    }
  }

  /** A separator: a string with no ASCII letter or digit. */
  predicate IsSeparator(sep: string) {
    forall i :: 0 <= i < |sep| ==> !IsAsciiAlnum(sep[i])
  }

  /** Lower-casing a separator gives characters outside `[a-z0-9]`. */
  lemma LowerSeparator(sep: string)
    requires IsSeparator(sep)
    ensures forall i :: 0 <= i < |LowerStr(sep)| ==> !IsSlugChar(LowerStr(sep)[i])
  {
    forall i | 0 <= i < |sep|
      ensures !IsSlugChar(LowerStr(sep)[i])
    {
      LowerSlugChar(sep[i]);
    }
  }

  /** Collapsing splits after a slug character. */
  lemma {:induction false} CollapseAppend(x: string, y: string)
    requires x == [] || IsSlugChar(x[|x| - 1])
    ensures CollapseRuns(x + y) == CollapseRuns(x) + CollapseRuns(y)
    decreases |x|
  {
    if x == [] {
      assert x + y == y;
    } else if IsSlugChar(x[0]) {
      assert (x + y)[1..] == x[1..] + y;
      assert x[1..] == [] || x[1..][|x[1..]| - 1] == x[|x| - 1];
      CollapseAppend(x[1..], y);
    } else {
      RunLengthAppend(x, y);
      var n := RunLength(x);
      assert (x + y)[n..] == x[n..] + y;
      assert x[n..][|x[n..]| - 1] == x[|x| - 1];
      CollapseAppend(x[n..], y);
    }
  }

  /** Any separator between two slugs becomes a single dash. */
  lemma SlugifyJoin(a: string, sep: string, b: string)
    requires IsSlugText(a) && a != []
    requires IsSlugText(b) && b != []
    requires IsSeparator(sep) && sep != []
    ensures Slugify(a + sep + b) == a + "-" + b
  {
    var ls := LowerStr(sep);
    LowerAround(a, sep, b);
    LowerSeparator(sep);
    CollapseJoin(a, ls, b);
    NoTrimNeeded(a + "-" + b);
  }

  /** Lower-casing leaves the slugs around a separator alone. */
  lemma LowerAround(a: string, sep: string, b: string)
    requires IsSlugText(a) && IsSlugText(b)
    ensures LowerStr(a + sep + b) == a + LowerStr(sep) + b
  {
    LowerStrFixed(a);
    LowerStrFixed(b);
    LowerStrAppend(a + sep, b);
    LowerStrAppend(a, sep);
  }

  lemma CollapseJoin(a: string, ls: string, b: string)
    requires IsSlugText(a) && a != []
    requires IsSlugText(b) && b != []
    requires ls != [] && forall i :: 0 <= i < |ls| ==> !IsSlugChar(ls[i])
    ensures CollapseRuns(a + ls + b) == a + "-" + b
  {
    SlugTextEnds(a);
    SlugTextEnds(b);
    CollapseAppend(a, ls + b);
    CollapseFixed(a);
    CollapseFixed(b);
    CollapseSeparator(ls, b);
    assert a + ls + b == a + (ls + b);
    assert a + ("-" + b) == a + "-" + b;
  }

  /** A non-empty slug starts and ends with a letter or digit. */
  lemma SlugTextEnds(x: string)
    requires IsSlugText(x) && x != []
    ensures IsSlugChar(x[0]) && IsSlugChar(x[|x| - 1])
    ensures SlugAlphabet(x) && NoDoubleDash(x)
  {
  }

  /** A run of separators in front of a slug character becomes one dash. */
  lemma CollapseSeparator(ls: string, b: string)
    requires ls != [] && forall i :: 0 <= i < |ls| ==> !IsSlugChar(ls[i])
    requires b == [] || IsSlugChar(b[0])
    ensures CollapseRuns(ls + b) == "-" + CollapseRuns(b)
  {
    RunLengthOf(ls, b);
    assert (ls + b)[0] == ls[0];
    assert (ls + b)[|ls|..] == b;
  }

  /** A string with no dash at either end is left alone by the trimming. */
  lemma NoTrimNeeded(x: string)
    requires x == [] || (x[0] != '-' && x[|x| - 1] != '-')
    ensures TrimDashes(x) == x
  {
  }

  /** Separators before and after a slug are dropped entirely. */
  lemma SlugifyDropsEnds(pre: string, a: string, post: string)
    requires IsSlugText(a) && a != []
    requires IsSeparator(pre) && IsSeparator(post)
    ensures Slugify(pre + a + post) == a
  {
    var lp, lq := LowerStr(pre), LowerStr(post);
    LowerStrFixed(a);
    LowerStrAppend(pre + a, post);
    LowerStrAppend(pre, a);
    LowerSeparator(pre);
    LowerSeparator(post);
    CollapseEnds(lp, a, lq);
  }

  lemma CollapseEnds(lp: string, a: string, lq: string)
    requires IsSlugText(a) && a != []
    requires forall i :: 0 <= i < |lp| ==> !IsSlugChar(lp[i])
    requires forall i :: 0 <= i < |lq| ==> !IsSlugChar(lq[i])
    ensures TrimDashes(CollapseRuns(lp + a + lq)) == a
  {
    CollapseAround(lp, a, lq);
    TrimAround(if lp == [] then "" else "-", a, if lq == [] then "" else "-");
  }

  lemma CollapseAround(lp: string, a: string, lq: string)
    requires IsSlugText(a) && a != []
    requires forall i :: 0 <= i < |lp| ==> !IsSlugChar(lp[i])
    requires forall i :: 0 <= i < |lq| ==> !IsSlugChar(lq[i])
    ensures CollapseRuns(lp + a + lq) == (if lp == [] then "" else "-") + a + (if lq == [] then "" else "-")
  {
    var c := CollapseRuns(a + lq);
    CollapseTail(a, lq);
    assert lp + a + lq == lp + (a + lq);
    if lp != [] {
      RunLengthOf(lp, a + lq);
      assert (lp + (a + lq))[|lp|..] == a + lq;
      assert CollapseRuns(lp + (a + lq)) == "-" + c;
    } else {
      assert lp + (a + lq) == a + lq;
    }
  }

  /** Trimming removes at most one dash on either side of a slug. */
  lemma TrimAround(d1: string, a: string, d2: string)
    requires d1 == "" || d1 == "-"
    requires d2 == "" || d2 == "-"
    requires a != [] && a[0] != '-' && a[|a| - 1] != '-'
    ensures TrimDashes(d1 + a + d2) == a
  {
    var x := d1 + a + d2;
    assert DropLeadingDash(x) == a + d2 by {
      if d1 == "-" {
        assert x == "-" + (a + d2);
      } else {
        assert x == a + d2;
      }
    }
    if d2 == "-" {
      assert (a + d2)[..|a|] == a;
    } else {
      assert a + d2 == a;
    }
  }

  /** Separators after a slug collapse to one trailing dash. */
  lemma CollapseTail(a: string, lq: string)
    requires IsSlugText(a) && a != []
    requires forall i :: 0 <= i < |lq| ==> !IsSlugChar(lq[i])
    ensures CollapseRuns(a + lq) == a + (if lq == [] then "" else "-")
  {
    CollapseAppend(a, lq);
    CollapseFixed(a);
    if lq != [] {
      RunLengthOf(lq, []);
      assert lq + [] == lq;
      assert lq[|lq|..] == [];
      assert CollapseRuns(lq) == "-";
    }
  }

  // ---- Where the dashes go, for any name ----

  /** No character of `s` is a letter or digit of the slug alphabet. */
  predicate Separators(s: string) {
    forall n :: 0 <= n < |s| ==> !IsSlugChar(s[n])
  }

  /** The length of the run of characters outside `[a-z0-9]` that ends `s`. */
  function TrailRun(s: string): (n: nat)
    ensures n <= |s|
    ensures forall i :: |s| - n <= i < |s| ==> !IsSlugChar(s[i])
    ensures n < |s| ==> IsSlugChar(s[|s| - n - 1])
  {
    if s != [] && !IsSlugChar(s[|s| - 1]) then TrailRun(s[..|s| - 1]) + 1 else 0
  }

  /** A lower-cased name with a letter or digit is its core, from its first
      to its last letter or digit, between two runs of separators; its slug
      is the collapsed core. */
  lemma CoreOf(t: string, k: int) returns (p: string, c: string, q: string)
    requires 0 <= k < |t| && IsSlugChar(t[k])
    ensures t == p + c + q
    ensures Separators(p) && Separators(q)
    ensures c != [] && IsSlugChar(c[0]) && IsSlugChar(c[|c| - 1])
    ensures IsSlugChar(t[0]) ==> p == []
    ensures IsSlugChar(t[|t| - 1]) ==> q == []
    ensures TrimDashes(CollapseRuns(t)) == CollapseRuns(c)
  {
    p, c, q := CoreSplit(t, k);
    CoreSlug(p, c, q);
  }

  /** The cut of `CoreOf`: the leading run, the core and the trailing run. */
  lemma CoreSplit(t: string, k: int) returns (p: string, c: string, q: string)
    requires 0 <= k < |t| && IsSlugChar(t[k])
    ensures t == p + c + q
    ensures Separators(p) && Separators(q)
    ensures c != [] && IsSlugChar(c[0]) && IsSlugChar(c[|c| - 1])
    ensures IsSlugChar(t[0]) ==> p == []
    ensures IsSlugChar(t[|t| - 1]) ==> q == []
  {
    var i, j := RunLength(t), |t| - TrailRun(t);
    CoreBounds(t, k);
    p, c, q := Cut3(t, i, j);
  }

  /** Cutting a string before its first and after its last letter or digit. */
  lemma Cut3(t: string, i: int, j: int) returns (p: string, c: string, q: string)
    requires 0 <= i < j <= |t|
    requires forall n :: 0 <= n < i ==> !IsSlugChar(t[n])
    requires forall n :: j <= n < |t| ==> !IsSlugChar(t[n])
    requires IsSlugChar(t[i]) && IsSlugChar(t[j - 1])
    ensures t == p + c + q
    ensures |p| == i && |q| == |t| - j
    ensures Separators(p) && Separators(q)
    ensures c != [] && IsSlugChar(c[0]) && IsSlugChar(c[|c| - 1])
  {
    p, c, q := t[..i], t[i..j], t[j..];
    assert c[0] == t[i] && c[|c| - 1] == t[j - 1];
    assert t == p + c + q;
    SuffixSeparators(t, j);
  }

  /** The core lies between the leading and the trailing run, around any
      letter or digit, and starts and ends with one. */
  lemma CoreBounds(t: string, k: int)
    requires 0 <= k < |t| && IsSlugChar(t[k])
    ensures var i, j := RunLength(t), |t| - TrailRun(t);
      i <= k < j && IsSlugChar(t[i]) && IsSlugChar(t[j - 1])
      && (forall n :: 0 <= n < i ==> !IsSlugChar(t[n]))
      && (IsSlugChar(t[0]) ==> i == 0)
      && (IsSlugChar(t[|t| - 1]) ==> j == |t|)
  {
    RunLengthFacts(t);
  }

  lemma SuffixSeparators(t: string, j: int)
    requires 0 <= j <= |t|
    requires forall n :: j <= n < |t| ==> !IsSlugChar(t[n])
    ensures Separators(t[j..])
  {
    forall n | 0 <= n < |t[j..]|
      ensures !IsSlugChar(t[j..][n])
    {
      assert t[j..][n] == t[j + n];
    }
  }

  /** Separators around a core that starts and ends with a letter or digit
      leave the collapsed core once trimmed. */
  lemma CoreSlug(p: string, core: string, q: string)
    requires Separators(p)
    requires Separators(q)
    requires core != [] && IsSlugChar(core[0]) && IsSlugChar(core[|core| - 1])
    ensures TrimDashes(CollapseRuns(p + core + q)) == CollapseRuns(core)
  {
    CollapsedCoreEnds(core);
    CollapseCore(p, core, q);
    TrimAround(if p == [] then "" else "-", CollapseRuns(core), if q == [] then "" else "-");
  }

  /** Separators around a core collapse to at most one dash on each side. */
  lemma CollapseCore(p: string, core: string, q: string)
    requires Separators(p)
    requires Separators(q)
    requires core != [] && IsSlugChar(core[0]) && IsSlugChar(core[|core| - 1])
    ensures CollapseRuns(p + core + q)
      == (if p == [] then "" else "-") + CollapseRuns(core) + (if q == [] then "" else "-")
  {
    var dp := if p == [] then "" else "-";
    var dq := if q == [] then "" else "-";
    CollapseCoreTail(core, q);
    assert (core + q)[0] == core[0];
    CollapseCoreHead(p, core + q);
    Assoc(p, core, q);
    Assoc(dp, CollapseRuns(core), dq);
  }

  lemma Assoc(a: string, b: string, c: string)
    ensures a + b + c == a + (b + c)
  {
  }

  /** A collapsed core neither starts nor ends with a dash. */
  lemma CollapsedCoreEnds(core: string)
    requires core != [] && IsSlugChar(core[0]) && IsSlugChar(core[|core| - 1])
    ensures var c := CollapseRuns(core);
      c != [] && c[0] != '-' && c[|c| - 1] != '-'
  {
    CollapseShape(core);
  }

  /** Separators after a core collapse to one trailing dash. */
  lemma CollapseCoreTail(core: string, q: string)
    requires core != [] && IsSlugChar(core[|core| - 1])
    requires Separators(q)
    ensures CollapseRuns(core + q) == CollapseRuns(core) + (if q == [] then "" else "-")
  {
    CollapseAppend(core, q);
    if q != [] {
      RunLengthOf(q, []);
      assert q + [] == q;
      assert q[|q|..] == [];
      assert CollapseRuns(q) == "-" + CollapseRuns([]);
    } else {
      assert core + q == core;
    }
  }

  /** Separators before a letter or digit collapse to one leading dash. */
  lemma CollapseCoreHead(p: string, rest: string)
    requires rest != [] && IsSlugChar(rest[0])
    requires Separators(p)
    ensures CollapseRuns(p + rest) == (if p == [] then "" else "-") + CollapseRuns(rest)
  {
    if p != [] {
      CollapseSeparator(p, rest);
    } else {
      assert p + rest == rest;
    }
  }

  /** A name whose slug is not empty holds a letter or digit once lower-cased. */
  lemma SlugWitness(x: string) returns (k: int)
    requires Slugify(x) != []
    ensures 0 <= k < |LowerStr(x)| && IsSlugChar(LowerStr(x)[k])
  {
    var r := Slugify(x);
    var lx := LowerStr(x);
    assert IsSlugChar(r[0]);
    assert r[0] in Alnums(r);
    assert r[0] in lx;
    k :| 0 <= k < |lx| && lx[k] == r[0];
  }

  /** Names joined by a separator: the slug of the whole is the two slugs
      with one dash between, whatever separators either name starts or
      ends with: "Whey Protein" and "Whey -- Protein!" slug alike. */
  lemma SlugifyConcat(x: string, sep: string, y: string)
    requires IsSeparator(sep) && sep != []
    requires Slugify(x) != [] && Slugify(y) != []
    ensures Slugify(x + sep + y) == Slugify(x) + "-" + Slugify(y)
  {
    var lx, ls, ly := LowerStr(x), LowerStr(sep), LowerStr(y);
    var kx := SlugWitness(x);
    var ky := SlugWitness(y);
    LowerStrAppend(x + sep, y);
    LowerStrAppend(x, sep);
    LowerSeparator(sep);
    ConcatLowered(lx, ls, ly, kx, ky);
  }

  /** `SlugifyConcat` for names already lower-cased. */
  lemma ConcatLowered(lx: string, ls: string, ly: string, kx: int, ky: int)
    requires 0 <= kx < |lx| && IsSlugChar(lx[kx])
    requires 0 <= ky < |ly| && IsSlugChar(ly[ky])
    requires ls != [] && Separators(ls)
    ensures TrimDashes(CollapseRuns(lx + ls + ly)) == TrimDashes(CollapseRuns(lx)) + "-" + TrimDashes(CollapseRuns(ly))
  {
    var p, cx, qx := CoreOf(lx, kx);
    var py, cy, q := CoreOf(ly, ky);
    SeparatorsAppend(qx, ls, py);
    Regroup(p, cx, qx, ls, py, cy, q);
    JoinCores(p, cx, qx + ls + py, cy, q);
  }

  lemma Regroup(a: string, b: string, c: string, d: string, e: string, f: string, g: string)
    ensures (a + b + c) + d + (e + f + g) == a + (b + (c + d + e) + f) + g
  {
  }

  /** Separators joined are separators. */
  lemma SeparatorsAppend(a: string, b: string, c: string)
    requires Separators(a) && Separators(b) && Separators(c)
    ensures Separators(a + b + c)
  {
    var m := a + b + c;
    forall n | 0 <= n < |m|
      ensures !IsSlugChar(m[n])
    {
      if n < |a| {
        assert m[n] == a[n];
      } else if n < |a| + |b| {
        assert m[n] == b[n - |a|];
      } else {
        assert m[n] == c[n - |a| - |b|];
      }
    }
  }

  /** Two cores joined by a non-empty run of separators, with separators
      around the whole, give the two collapsed cores with one dash between. */
  lemma JoinCores(p: string, cx: string, m: string, cy: string, q: string)
    requires Separators(p)
    requires Separators(q)
    requires m != [] && Separators(m)
    requires cx != [] && IsSlugChar(cx[0]) && IsSlugChar(cx[|cx| - 1])
    requires cy != [] && IsSlugChar(cy[0]) && IsSlugChar(cy[|cy| - 1])
    ensures TrimDashes(CollapseRuns(p + (cx + m + cy) + q)) == CollapseRuns(cx) + "-" + CollapseRuns(cy)
  {
    var core := cx + m + cy;
    assert core[0] == cx[0] && core[|core| - 1] == cy[|cy| - 1];
    CoreSlug(p, core, q);
    CollapseCores(cx, m, cy);
  }

  /** Collapsing two cores with separators between them. */
  lemma CollapseCores(cx: string, m: string, cy: string)
    requires m != [] && Separators(m)
    requires cx != [] && IsSlugChar(cx[|cx| - 1])
    requires cy != [] && IsSlugChar(cy[0])
    ensures CollapseRuns(cx + m + cy) == CollapseRuns(cx) + "-" + CollapseRuns(cy)
  {
    CollapseAppend(cx, m + cy);
    CollapseSeparator(m, cy);
    assert cx + m + cy == cx + (m + cy);
    assert CollapseRuns(cx) + ("-" + CollapseRuns(cy)) == CollapseRuns(cx) + "-" + CollapseRuns(cy);
  }

  /** Names that meet at a letter or digit: the slug of the whole is the two
      slugs run together, with no dash. */
  lemma SlugifyAdjacent(x: string, y: string)
    requires x != [] && IsAsciiAlnum(x[|x| - 1])
    requires y != [] && IsAsciiAlnum(y[0])
    ensures Slugify(x + y) == Slugify(x) + Slugify(y)
  {
    var lx, ly := LowerStr(x), LowerStr(y);
    LowerSlugChar(x[|x| - 1]);
    LowerSlugChar(y[0]);
    LowerStrAppend(x, y);
    AdjacentLowered(lx, ly);
  }

  /** `SlugifyAdjacent` for names already lower-cased. */
  lemma AdjacentLowered(lx: string, ly: string)
    requires lx != [] && IsSlugChar(lx[|lx| - 1])
    requires ly != [] && IsSlugChar(ly[0])
    ensures TrimDashes(CollapseRuns(lx + ly)) == TrimDashes(CollapseRuns(lx)) + TrimDashes(CollapseRuns(ly))
  {
    var p, cx, qx := CoreOf(lx, |lx| - 1);
    var py, cy, q := CoreOf(ly, 0);
    AdjacentRegroup(p, cx, qx, py, cy, q);
    AdjacentCores(p, cx, cy, q);
  }

  lemma AdjacentRegroup(p: string, cx: string, qx: string, py: string, cy: string, q: string)
    requires qx == [] && py == []
    ensures (p + cx + qx) + (py + cy + q) == p + (cx + cy) + q
  {
  }

  lemma AdjacentCores(p: string, cx: string, cy: string, q: string)
    requires Separators(p)
    requires Separators(q)
    requires cx != [] && IsSlugChar(cx[0]) && IsSlugChar(cx[|cx| - 1])
    requires cy != [] && IsSlugChar(cy[0]) && IsSlugChar(cy[|cy| - 1])
    ensures TrimDashes(CollapseRuns(p + (cx + cy) + q)) == CollapseRuns(cx) + CollapseRuns(cy)
  {
    var core := cx + cy;
    assert core[0] == cx[0] && core[|core| - 1] == cy[|cy| - 1];
    CoreSlug(p, core, q);
    CollapseAppend(cx, cy);
  }

  /** A name of ASCII letters and digits only is its own lower-case slug. */
  lemma SlugifyWord(x: string)
    requires forall i :: 0 <= i < |x| ==> IsAsciiAlnum(x[i])
    ensures Slugify(x) == LowerStr(x)
  {
    var lx := LowerStr(x);
    forall i | 0 <= i < |x|
      ensures IsSlugChar(lx[i])
    {
      LowerSlugChar(x[i]);
    }
    CollapseFixed(lx);
    NoTrimNeeded(lx);
  }
}

module NewProductForm {
  import opened Slug

  datatype FieldValue = Text(text: string) | Checked(on: bool)

  /** The form state, keyed by the controls' `name` attributes. */
  type Form = map<string, FieldValue>

  datatype ChangeEvent = ChangeEvent(name: string, value: string, isCheckbox: bool, checked: bool)

  /** What a control stores for its own field. */
  function Stored(e: ChangeEvent): FieldValue {
    if e.isCheckbox then Checked(e.checked) else Text(e.value)
  }

  /** The fields a change writes: its own, and the slug when the name changes. */
  function Touched(e: ChangeEvent): set<string> {
    {e.name} + (if e.name == "name" then {"slug"} else {})
  }

  /** `handleInputChange` with both state updates applied in order. */
  function HandleInputChange(form: Form, e: ChangeEvent): (r: Form)
    ensures r.Keys == form.Keys + Touched(e)
    ensures r[e.name] == Stored(e)
    ensures e.name == "name" ==> r["slug"] == Text(Slugify(e.value))
    ensures forall k :: k in form && k !in Touched(e) ==> r[k] == form[k]
  {
    var updated := form[e.name := Stored(e)];
    if e.name == "name" then updated["slug" := Text(Slugify(e.value))] else updated
  }
}

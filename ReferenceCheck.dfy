/**
  The cross-reference checks of check_all_references.py: the citation keys
  taken from each `\cite{...}` argument, the label and reference set
  differences, the citations missing from the bibliography, and the issue
  totals that decide the final verdict.  The regular-expression matching and
  the file probing are inputs: `citeArgs` are the captured `\cite` arguments,
  `present` the figure paths that exist on disk.
*/
module ReferenceCheck {
  import opened Wrappers
  import opened PyStr

  // ---------------------------------------------------------------------------
  // extract_citations (lines 61-76)

  /** `[c.strip() for c in pieces]`: one entry per piece, each already stripped
      and holding no comma its piece did not hold. */
  function StripAll(pieces: seq<string>): (r: seq<string>)
    ensures |r| == |pieces|
    ensures forall k :: 0 <= k < |r| ==> Strip(r[k]) == r[k]
    ensures forall k :: 0 <= k < |r| && ',' !in pieces[k] ==> ',' !in r[k]
  {
    StripAllShape(pieces);
    seq(|pieces|, k requires 0 <= k < |pieces| => Strip(pieces[k]))
  }

  lemma StripAllShape(pieces: seq<string>)
    ensures forall k :: 0 <= k < |pieces| ==> Strip(Strip(pieces[k])) == Strip(pieces[k])
    ensures forall k :: 0 <= k < |pieces| && ',' !in pieces[k] ==> ',' !in Strip(pieces[k])
  {
    forall k | 0 <= k < |pieces|
      ensures Strip(Strip(pieces[k])) == Strip(pieces[k])
      ensures ',' !in pieces[k] ==> ',' !in Strip(pieces[k])
    {
      StripIdempotent(pieces[k]);
      if ',' !in pieces[k] {
        StripKeepsOut(pieces[k], ',');
      }
    }
  }

  /** The keys of one `\cite` argument: split on ',' and stripped. */
  function Keys(arg: string): seq<string> {
    StripAll(Split(arg, ','))
  }

  /** The key lists of the arguments, one per argument (KeyListsShape). */
  function KeyLists(args: seq<string>): seq<seq<string>> {
    seq(|args|, j requires 0 <= j < |args| => Keys(args[j]))
  }

  /** One key list per argument, each with one key more than its argument has
      commas, and no key holding a comma or surrounding whitespace. */
  lemma KeyListsShape(args: seq<string>)
    ensures |KeyLists(args)| == |args|
    ensures forall j :: 0 <= j < |args| ==> |KeyLists(args)[j]| == CountChar(args[j], ',') + 1
    ensures forall j :: 0 <= j < |args| ==> KeysShaped(KeyLists(args)[j])
  {
    forall j | 0 <= j < |args|
      ensures |KeyLists(args)[j]| == CountChar(args[j], ',') + 1
    {
      KeyCount(args[j]);
    }
    forall j, c | 0 <= j < |args| && c in KeyLists(args)[j]
      ensures ',' !in c && Strip(c) == c
    {
      KeyShape(args[j], c);
    }
  }

  /** No key holds a comma or surrounding whitespace. */
  predicate KeysShaped(ks: seq<string>) {
    forall c :: c in ks ==> ',' !in c && Strip(c) == c
  }

  /** The lists concatenated in order. */
  function Flatten(xss: seq<seq<string>>): seq<string>
    decreases |xss|
  {
    if |xss| == 0 then [] else Flatten(xss[..|xss| - 1]) + xss[|xss| - 1]
  }

  /** The keys of all arguments, in order: what `all_cites` holds at the end. */
  function Citations(args: seq<string>): seq<string> {
    Flatten(KeyLists(args))
  }

  /** The number of commas over all arguments. */
  function Commas(args: seq<string>): nat
    decreases |args|
  {
    if |args| == 0 then 0 else Commas(args[..|args| - 1]) + CountChar(args[|args| - 1], ',')
  }

  /** Extending with one more argument appends its keys. */
  lemma CitationsSnoc(args: seq<string>, arg: string)
    ensures Citations(args + [arg]) == Citations(args) + Keys(arg)
  {
    var xss := KeyLists(args + [arg]);
    assert xss[..|args|] == KeyLists(args);
  }

  /** Lines 70-75: `all_cites.extend(...)` over the arguments in order. */
  method ExtractCitations(args: seq<string>) returns (allCites: seq<string>)
    ensures allCites == Citations(args)
  {
    allCites := [];
    var i := 0;
    while i < |args|
      invariant 0 <= i <= |args|
      invariant allCites == Citations(args[..i])
    {
      assert args[..i + 1] == args[..i] + [args[i]];
      CitationsSnoc(args[..i], args[i]);
      var cites := StripAll(Split(args[i], ','));
      allCites := allCites + cites;
      i := i + 1;
    }
    assert args[..|args|] == args;
  }

  /** Each argument gives one key more than it has commas. */
  lemma {:induction false} CitationCount(args: seq<string>)
    ensures |Citations(args)| == Commas(args) + |args|
    decreases |args|
  {
    if |args| > 0 {
      var init := args[..|args| - 1];
      CitationCount(init);
      assert args == init + [args[|args| - 1]];
      CitationsSnoc(init, args[|args| - 1]);
      KeyCount(args[|args| - 1]);
    }
  }

  /** One argument has one key more than it has commas. */
  lemma KeyCount(arg: string)
    ensures |Keys(arg)| == CountChar(arg, ',') + 1
  {
    SplitJoin(arg, ',');
  }

  /** Concatenating lists concatenates their elements. */
  lemma {:induction false} FlattenConcat(xss: seq<seq<string>>, yss: seq<seq<string>>)
    ensures Flatten(xss + yss) == Flatten(xss) + Flatten(yss)
    decreases |yss|
  {
    if |yss| == 0 {
      assert xss + yss == xss;
    } else {
      var init := yss[..|yss| - 1];
      assert (xss + yss)[..|xss + yss| - 1] == xss + init;
      FlattenConcat(xss, init);
    }
  }

  /** Concatenating the arguments concatenates their keys: order is kept. */
  lemma CitationsConcat(a: seq<string>, b: seq<string>)
    ensures Citations(a + b) == Citations(a) + Citations(b)
  {
    assert KeyLists(a + b) == KeyLists(a) + KeyLists(b);
    FlattenConcat(KeyLists(a), KeyLists(b));
  }

  /** An element of a concatenation comes from one of its lists. */
  lemma {:induction false} FlattenMembership(xss: seq<seq<string>>, c: string)
    ensures c in Flatten(xss) <==> exists j :: 0 <= j < |xss| && c in xss[j]
    decreases |xss|
  {
    if |xss| > 0 {
      var init := xss[..|xss| - 1];
      FlattenMembership(init, c);
      if c in Flatten(init) {
        var j :| 0 <= j < |init| && c in init[j];
        assert xss[j] == init[j];
      }
      if exists j :: 0 <= j < |xss| && c in xss[j] {
        var j :| 0 <= j < |xss| && c in xss[j];
        if j < |init| {
          assert init[j] == xss[j];
        }
      }
    }
  }

  /** A key is a citation iff it is a key of some argument. */
  lemma CitationMembership(args: seq<string>, c: string)
    ensures c in Citations(args) <==> exists j :: 0 <= j < |args| && c in KeyLists(args)[j]
  {
    FlattenMembership(KeyLists(args), c);
  }

  /** Stripping takes a slice, so it adds no character. */
  lemma StripKeepsOut(s: string, ch: char)
    requires ch !in s
    ensures ch !in Strip(s)
  {
    var i, j :| 0 <= i <= j <= |s| && Strip(s) == s[i..j];
    SliceKeepsOut(s, i, j, ch);
  }

  lemma SliceKeepsOut(s: string, i: int, j: int, ch: char)
    requires 0 <= i <= j <= |s| && ch !in s
    ensures ch !in s[i..j]
  {
  }

  /** No key of an argument contains a comma or surrounding whitespace. */
  lemma KeyShape(arg: string, c: string)
    requires c in Keys(arg)
    ensures ',' !in c && Strip(c) == c
  {
    var pieces := Split(arg, ',');
    var ks := StripAll(pieces);
    var k :| 0 <= k < |ks| && ks[k] == c;
    assert c == Strip(pieces[k]) && ',' !in pieces[k];
    StripKeepsOut(pieces[k], ',');
    StripIdempotent(pieces[k]);
  }

  /** No citation contains a comma or surrounding whitespace. */
  lemma CitationShape(args: seq<string>, c: string)
    requires c in Citations(args)
    ensures ',' !in c && Strip(c) == c
  {
    CitationMembership(args, c);
    var j :| 0 <= j < |args| && c in KeyLists(args)[j];
    KeyShape(args[j], c);
  }

  // ---------------------------------------------------------------------------
  // extract_bib_entries (lines 78-89)

  /** A missing bibliography file (None) gives no keys; otherwise its `@type{key,`
      matches. */
  function BibEntries(bibMatches: Option<seq<string>>): seq<string> {
    match bibMatches
    case None => []
    case Some(keys) => keys
  }

  // ---------------------------------------------------------------------------
  // Duplicate labels (lines 148-151, 181-184)

  /** `xs.count(x)`. */
  function Count(xs: seq<string>, x: string): nat
    decreases |xs|
  {
    if |xs| == 0 then 0 else Count(xs[..|xs| - 1], x) + (if xs[|xs| - 1] == x then 1 else 0)
  }

  /** A label is flagged as duplicate when its count exceeds one. */
  predicate Duplicated(labels: seq<string>, name: string) {
    Count(labels, name) > 1
  }

  /** The flagged labels among `set(labels)`. */
  function Duplicates(labels: seq<string>): (d: set<string>)
    ensures forall l :: l in d ==> l in labels
  {
    set l | l in labels && Duplicated(labels, l)
  }

  /** The count is positive iff the label occurs. */
  lemma {:induction false} CountPositive(xs: seq<string>, x: string)
    ensures Count(xs, x) > 0 <==> x in xs
    decreases |xs|
  {
    if |xs| > 0 {
      var init := xs[..|xs| - 1];
      CountPositive(init, x);
      assert xs == init + [xs[|xs| - 1]];
    }
  }

  /** A label is flagged iff it is defined at two different positions. */
  lemma {:induction false} DuplicatedIffTwice(labels: seq<string>, l: string)
    ensures Duplicated(labels, l) <==>
      exists i, j :: 0 <= i < j < |labels| && labels[i] == l && labels[j] == l
    decreases |labels|
  {
    if |labels| > 0 {
      var n := |labels| - 1;
      var init := labels[..n];
      DuplicatedIffTwice(init, l);
      CountPositive(init, l);
      if labels[n] == l && l in init {
        var i :| 0 <= i < n && init[i] == l;
        assert labels[i] == l;
      }
      if exists i, j :: 0 <= i < j < |labels| && labels[i] == l && labels[j] == l {
        var i, j :| 0 <= i < j < |labels| && labels[i] == l && labels[j] == l;
        if j < n {
          assert init[i] == l && init[j] == l;
        } else {
          assert init[i] == l;
        }
      }
      if exists i, j :: 0 <= i < j < |init| && init[i] == l && init[j] == l {
        var i, j :| 0 <= i < j < |init| && init[i] == l && init[j] == l;
        assert labels[i] == l && labels[j] == l;
      }
    }
  }

  // ---------------------------------------------------------------------------
  // Undefined and unreferenced labels (lines 160, 167, 193, 200, 224, 364, 373)

  /** `set(refs) - set(labels)`. */
  function Undefined(refs: seq<string>, labels: seq<string>): set<string> {
    (set r | r in refs) - (set l | l in labels)
  }

  /** `set(labels) - set(refs)`. */
  function Unreferenced(labels: seq<string>, refs: seq<string>): set<string> {
    (set l | l in labels) - (set r | r in refs)
  }

  /** No name is both undefined and unreferenced; the undefined references are
      exactly those without a label, so there are none iff every reference is
      defined; together with the labels that are used they cover every name. */
  lemma UndefinedAndUnreferenced(refs: seq<string>, labels: seq<string>)
    ensures Undefined(refs, labels) * Unreferenced(labels, refs) == {}
    ensures forall r :: r in Undefined(refs, labels) <==> r in refs && r !in labels
    ensures forall l :: l in Unreferenced(labels, refs) <==> l in labels && l !in refs
    ensures Undefined(refs, labels) == {} <==> forall r :: r in refs ==> r in labels
    ensures Undefined(refs, labels) + Unreferenced(labels, refs) + ((set l | l in labels) * (set r | r in refs))
      == (set l | l in labels) + (set r | r in refs)
  {
    if Undefined(refs, labels) == {} {
      forall r | r in refs ensures r in labels {
        assert r !in Undefined(refs, labels);
      }
    } else {
      var r :| r in Undefined(refs, labels);
      assert r in refs && r !in labels;
    }
  }

  // ---------------------------------------------------------------------------
  // Missing bibliography entries (lines 215-221, 299-305)

  /** The distinct citations without a bibliography entry. */
  function MissingSet(citations: seq<string>, bibEntries: seq<string>): set<string> {
    set c | c in citations && c !in bibEntries
  }

  /** Lines 215-221: each distinct citation not among the bibliography keys is
      appended once.  The iteration order is left open (the source sorts). */
  method MissingBibs(citations: seq<string>, bibEntries: seq<string>) returns (missing: seq<string>)
    ensures (set c | c in missing) == MissingSet(citations, bibEntries)
    ensures |missing| == |MissingSet(citations, bibEntries)|
  {
    var target := MissingSet(citations, bibEntries);
    var distinct := set c | c in citations;
    var remaining := distinct;
    ghost var done: set<string> := {};
    missing := [];
    while remaining != {}
      invariant remaining <= distinct
      invariant done == target - remaining
      invariant (set c | c in missing) == done && |missing| == |done|
      decreases |remaining|
    {
      var cite :| cite in remaining;
      DoneGrows(target, remaining, cite);
      if cite !in bibEntries {
        assert cite in target && cite !in done;
        assert |done + {cite}| == |done| + 1;
        ElementsOfSnoc(missing, cite);
        missing := missing + [cite];
        done := done + {cite};
      }
      assert |remaining - {cite}| == |remaining| - 1;
      remaining := remaining - {cite};
    }
  }

  /** Taking one element out of `remaining` adds it to `target - remaining` iff
      it belongs to target. */
  lemma DoneGrows(target: set<string>, remaining: set<string>, x: string)
    requires x in remaining
    ensures x in target ==> x !in target - remaining && target - (remaining - {x}) == (target - remaining) + {x}
    ensures x !in target ==> target - (remaining - {x}) == target - remaining
  {
  }

  lemma ElementsOfSnoc(xs: seq<string>, x: string)
    ensures (set c | c in xs + [x]) == (set c | c in xs) + {x}
  {
  }

  /** Without a bibliography file every citation is missing. */
  lemma NoBibFileMissesAll(citations: seq<string>)
    ensures MissingSet(citations, BibEntries(None)) == set c | c in citations
  {
  }

  /** The missing entries are the undefined citations: the same set difference
      as for labels. */
  lemma MissingAreUndefined(citations: seq<string>, bibEntries: seq<string>)
    ensures MissingSet(citations, bibEntries) == Undefined(citations, bibEntries)
  {
  }

  // ---------------------------------------------------------------------------
  // One paper and the summary (lines 126-138, 315-397)

  /** The regular-expression matches of one LaTeX file. */
  datatype Paper = Paper(figureFiles: seq<string>, figLabels: seq<string>, figRefs: seq<string>,
                         tabLabels: seq<string>, tabRefs: seq<string>, citeArgs: seq<string>)

  /** The four lists the summary counts. */
  datatype Issues = Issues(missingFigures: seq<string>, undefinedFigRefs: set<string>,
                           undefinedTabRefs: set<string>, missingBibs: seq<string>)

  /** The figure paths not found on disk, in their order (lines 129-138). */
  function MissingFigures(figures: seq<string>, present: set<string>): (r: seq<string>)
    ensures |r| <= |figures|
    ensures forall f :: f in r <==> f in figures && f !in present
    decreases |figures|
  {
    if |figures| == 0 then []
    else
      var init := MissingFigures(figures[..|figures| - 1], present);
      var f := figures[|figures| - 1];
      assert forall g :: g in figures <==> g in figures[..|figures| - 1] || g == f;
      if f in present then init else init + [f]
  }

  /** Lines 129-138: the loop over the figure paths. */
  method CollectMissingFigures(figures: seq<string>, present: set<string>) returns (missing: seq<string>)
    ensures missing == MissingFigures(figures, present)
  {
    missing := [];
    var i := 0;
    while i < |figures|
      invariant 0 <= i <= |figures|
      invariant missing == MissingFigures(figures[..i], present)
    {
      assert figures[..i + 1][..i] == figures[..i];
      if figures[i] !in present {
        missing := missing + [figures[i]];
      }
      i := i + 1;
    }
    assert figures[..|figures|] == figures;
  }

  /** The checks of one paper against the shared bibliography keys. */
  method CheckPaper(p: Paper, present: set<string>, bibEntries: seq<string>) returns (issues: Issues)
    ensures issues.missingFigures == MissingFigures(p.figureFiles, present)
    ensures issues.undefinedFigRefs == Undefined(p.figRefs, p.figLabels)
    ensures issues.undefinedTabRefs == Undefined(p.tabRefs, p.tabLabels)
    ensures (set c | c in issues.missingBibs) == MissingSet(Citations(p.citeArgs), bibEntries)
    ensures |issues.missingBibs| == |MissingSet(Citations(p.citeArgs), bibEntries)|
  {
    var missingFigures := CollectMissingFigures(p.figureFiles, present);
    var citations := ExtractCitations(p.citeArgs);
    var missingBibs := MissingBibs(citations, bibEntries);
    issues := Issues(missingFigures, Undefined(p.figRefs, p.figLabels), Undefined(p.tabRefs, p.tabLabels), missingBibs);
  }

  /** Nothing to report. */
  predicate Clean(issues: Issues) {
    && issues.missingFigures == []
    && issues.undefinedFigRefs == {}
    && issues.undefinedTabRefs == {}
    && issues.missingBibs == []
  }

  /** Lines 315-349 (and 354-390): each non-empty list adds its length. */
  method TotalIssues(issues: Issues) returns (total: nat)
    ensures total == |issues.missingFigures| + |issues.undefinedFigRefs|
                   + |issues.undefinedTabRefs| + |issues.missingBibs|
    ensures total == 0 <==> Clean(issues)
  {
    total := 0;
    if issues.missingFigures != [] {
      total := total + |issues.missingFigures|;
    }
    if issues.undefinedFigRefs != {} {
      total := total + |issues.undefinedFigRefs|;
    }
    if issues.undefinedTabRefs != {} {
      total := total + |issues.undefinedTabRefs|;
    }
    if issues.missingBibs != [] {
      total := total + |issues.missingBibs|;
    }
  }

  /** Line 393: success is announced iff neither paper has an issue; otherwise
      the sum of both totals is reported. */
  method Verdict(english: Paper, chinese: Paper, present: set<string>, bibMatches: Option<seq<string>>)
    returns (success: bool, issueCount: nat)
    ensures success <==> issueCount == 0
    ensures success <==>
      && (forall f :: f in english.figureFiles + chinese.figureFiles ==> f in present)
      && (forall r :: r in english.figRefs ==> r in english.figLabels)
      && (forall r :: r in english.tabRefs ==> r in english.tabLabels)
      && (forall r :: r in chinese.figRefs ==> r in chinese.figLabels)
      && (forall r :: r in chinese.tabRefs ==> r in chinese.tabLabels)
      && (forall c :: c in Citations(english.citeArgs) + Citations(chinese.citeArgs) ==> c in BibEntries(bibMatches))
    ensures issueCount ==
      |MissingFigures(english.figureFiles, present)| + |Undefined(english.figRefs, english.figLabels)|
      + |Undefined(english.tabRefs, english.tabLabels)| + |MissingSet(Citations(english.citeArgs), BibEntries(bibMatches))|
      + |MissingFigures(chinese.figureFiles, present)| + |Undefined(chinese.figRefs, chinese.figLabels)|
      + |Undefined(chinese.tabRefs, chinese.tabLabels)| + |MissingSet(Citations(chinese.citeArgs), BibEntries(bibMatches))|
  {
    var bibEntries := BibEntries(bibMatches);
    var en := CheckPaper(english, present, bibEntries);
    var cn := CheckPaper(chinese, present, bibEntries);
    var totalEn := TotalIssues(en);
    var totalCn := TotalIssues(cn);
    success := totalEn == 0 && totalCn == 0;
    issueCount := totalEn + totalCn;
    CleanIffDefined(english, present, bibEntries, en);
    CleanIffDefined(chinese, present, bibEntries, cn);
  }

  /** No figure is missing iff every figure path is present. */
  lemma NoMissingFigures(figures: seq<string>, present: set<string>)
    ensures MissingFigures(figures, present) == [] <==> forall f :: f in figures ==> f in present
  {
    var m := MissingFigures(figures, present);
    if m != [] {
      assert m[0] in m;
    }
  }

  /** No bibliography entry is missing iff every citation has one. */
  lemma NoMissingBibs(citations: seq<string>, bibEntries: seq<string>, missing: seq<string>)
    requires (set c | c in missing) == MissingSet(citations, bibEntries)
    ensures missing == [] <==> forall c :: c in citations ==> c in bibEntries
  {
    if missing == [] {
      assert (set c | c in missing) == {};
      forall c | c in citations ensures c in bibEntries {
        assert c !in MissingSet(citations, bibEntries);
      }
    } else {
      assert missing[0] in (set c | c in missing);
      assert missing[0] in MissingSet(citations, bibEntries);
      assert missing[0] in citations && missing[0] !in bibEntries;
    }
  }

  /** A paper's issues are empty iff every figure exists, every reference is
      defined and every citation has a bibliography entry. */
  lemma CleanIffDefined(p: Paper, present: set<string>, bibEntries: seq<string>, issues: Issues)
    requires issues.missingFigures == MissingFigures(p.figureFiles, present)
    requires issues.undefinedFigRefs == Undefined(p.figRefs, p.figLabels)
    requires issues.undefinedTabRefs == Undefined(p.tabRefs, p.tabLabels)
    requires (set c | c in issues.missingBibs) == MissingSet(Citations(p.citeArgs), bibEntries)
    ensures Clean(issues) <==>
      && (forall f :: f in p.figureFiles ==> f in present)
      && (forall r :: r in p.figRefs ==> r in p.figLabels)
      && (forall r :: r in p.tabRefs ==> r in p.tabLabels)
      && (forall c :: c in Citations(p.citeArgs) ==> c in bibEntries)
  {
    UndefinedAndUnreferenced(p.figRefs, p.figLabels);
    UndefinedAndUnreferenced(p.tabRefs, p.tabLabels);
    NoMissingFigures(p.figureFiles, present);
    NoMissingBibs(Citations(p.citeArgs), bibEntries, issues.missingBibs);
  }

  /** Unreferenced labels are printed but never counted: a paper whose only
      figure label is never referred to has no issues. */
  lemma UnreferencedIsNoIssue()
    ensures var p := Paper([], ["fig:a"], [], [], [], []);
      && Unreferenced(p.figLabels, p.figRefs) == {"fig:a"}
      && Clean(Issues(MissingFigures(p.figureFiles, {}), Undefined(p.figRefs, p.figLabels),
                      Undefined(p.tabRefs, p.tabLabels), []))
  {
    var p := Paper([], ["fig:a"], [], [], [], []);
    assert "fig:a" in p.figLabels;
    UndefinedAndUnreferenced(p.figRefs, p.figLabels);
  }
}

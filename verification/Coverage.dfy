/**
 The coverage report of pkg/doctor/doctor.go: every method of the upstream protocol is sorted into
 one of three lists of its domain, and every other method the bridge knows into a fourth.
 */
module Ordering {
  /** Strings in the order of sort.Strings. */
  predicate Leq(a: string, b: string) {
    a == "" || (b != "" && (a[0] < b[0] || (a[0] == b[0] && Leq(a[1..], b[1..]))))
  }

  lemma {:induction false} LeqTotal(a: string, b: string)
    ensures Leq(a, b) || Leq(b, a)
  {
    if a != "" && b != "" { LeqTotal(a[1..], b[1..]); }
  }

  lemma {:induction false} LeqTransitive(a: string, b: string, c: string)
    requires Leq(a, b) && Leq(b, c)
    ensures Leq(a, c)
  {
    if a != "" && a[0] == b[0] == c[0] { LeqTransitive(a[1..], b[1..], c[1..]); }
  }

  lemma {:induction false} LeqAntisymmetric(a: string, b: string)
    requires Leq(a, b) && Leq(b, a)
    ensures a == b
  {
    if a != "" {
      LeqAntisymmetric(a[1..], b[1..]);
      assert a == [a[0]] + a[1..] && b == [b[0]] + b[1..];
    }
  }

  /** A text comes before another if it starts it, or has the smaller character where they first differ. */
  lemma {:induction false} LeqIff(a: string, b: string)
    ensures Leq(a, b) <==> a <= b || exists i :: 0 <= i < |a| && i < |b| && a[..i] == b[..i] && a[i] < b[i]
  {
    if a != "" && b != "" && a[0] == b[0] {
      LeqIff(a[1..], b[1..]);
      assert a == [a[0]] + a[1..] && b == [b[0]] + b[1..];
      if a[1..] <= b[1..] { assert a <= b; }
      if a <= b { assert a[1..] <= b[1..]; }
      if i :| 0 <= i < |a[1..]| && i < |b[1..]| && a[1..][..i] == b[1..][..i] && a[1..][i] < b[1..][i] {
        assert a[..i + 1] == [a[0]] + a[1..][..i] && b[..i + 1] == [b[0]] + b[1..][..i];
      }
      if i :| 0 <= i < |a| && i < |b| && a[..i] == b[..i] && a[i] < b[i] {
        assert a[1..][..i - 1] == a[..i][1..] && b[1..][..i - 1] == b[..i][1..];
        assert a[1..][i - 1] < b[1..][i - 1];
      }
    } else if a != "" && b != "" && a[0] < b[0] {
      assert a[..0] == b[..0];
    } else if a != "" && b != "" {
      forall i | 0 <= i < |a| && i < |b| ensures !(a[..i] == b[..i] && a[i] < b[i]) {
        if i > 0 { assert a[..i][0] == a[0] && b[..i][0] == b[0]; }
      }
    }
  }

  predicate SortedBy<T>(s: seq<T>, key: T -> string) { forall i, j | 0 <= i < j < |s| :: Leq(key(s[i]), key(s[j])) }

  function Insert<T>(x: T, s: seq<T>, key: T -> string): seq<T> {
    if s == [] || Leq(key(x), key(s[0])) then [x] + s else [s[0]] + Insert(x, s[1..], key)
  }

  lemma {:induction false} InsertSorts<T>(x: T, s: seq<T>, key: T -> string)
    requires SortedBy(s, key)
    ensures SortedBy(Insert(x, s, key), key) && multiset(Insert(x, s, key)) == multiset{x} + multiset(s)
  {
    if s == [] {
    } else if Leq(key(x), key(s[0])) {
      forall j | 0 <= j < |s| ensures Leq(key(x), key(s[j])) {
        if j > 0 { LeqTransitive(key(x), key(s[0]), key(s[j])); }
      }
    } else {
      LeqTotal(key(x), key(s[0]));
      InsertSorts(x, s[1..], key);
      var rest := Insert(x, s[1..], key);
      assert s == [s[0]] + s[1..];
      forall j | 0 <= j < |rest| ensures Leq(key(s[0]), key(rest[j])) {
        assert rest[j] in multiset(rest);
        if rest[j] != x { assert rest[j] in s[1..]; }
      }
    }
  }

  lemma {:induction false} TwiceIsTwo<T>(s: seq<T>, i: nat, j: nat)
    requires i < j < |s| && s[i] == s[j]
    ensures multiset(s)[s[i]] >= 2
  {
    assert s == s[..j] + s[j..] && s[..j][i] == s[i] && s[j..][0] == s[j];
    assert s[i] in multiset(s[..j]) && s[j] in multiset(s[j..]);
    assert multiset(s) == multiset(s[..j]) + multiset(s[j..]);
  }

  lemma {:induction false} TwoIsTwice<T>(s: seq<T>, x: T) returns (i: nat, j: nat)
    requires multiset(s)[x] >= 2
    ensures i < j < |s| && s[i] == s[j] == x
  {
    assert s == [s[0]] + s[1..];
    if s[0] == x {
      assert x in multiset(s[1..]);
      var k :| 0 <= k < |s[1..]| && s[1..][k] == x;
      return 0, k + 1;
    }
    i, j := TwoIsTwice(s[1..], x);
    i, j := i + 1, j + 1;
  }

  predicate DistinctBy<T>(s: seq<T>, key: T -> string) { forall i, j | 0 <= i < j < |s| :: key(s[i]) != key(s[j]) }

  lemma DistinctPermutes<T>(a: seq<T>, b: seq<T>, key: T -> string)
    requires multiset(a) == multiset(b) && DistinctBy(a, key)
    ensures DistinctBy(b, key)
  {
    forall i, j | 0 <= i < j < |b| ensures key(b[i]) != key(b[j]) {
      if b[i] == b[j] {
        TwiceIsTwo(b, i, j);
        var p, q := TwoIsTwice(a, b[i]);
      } else {
        assert b[i] in multiset(a) && b[j] in multiset(a);
        var p :| 0 <= p < |a| && a[p] == b[i];
        var q :| 0 <= q < |a| && a[q] == b[j];
        assert p < q || q < p;
      }
    }
  }

  function Sort<T>(s: seq<T>, key: T -> string): (r: seq<T>)
    ensures SortedBy(r, key) && multiset(r) == multiset(s)
  {
    if s == [] then [] else
    var rest := Sort(s[1..], key);
    InsertSorts(s[0], rest, key);
    assert s == [s[0]] + s[1..];
    Insert(s[0], rest, key)
  }
}

module Coverage {
  import opened Common
  import opened Ordering

  /** What the program knows: upstream names by domain, the methods it handles, and which of all those are stubs. */
  datatype Known = Known(upstream: map<string, seq<string>>, current: set<string>, stubbedMethods: set<string>,
      stubbedDomains: set<string>)

  datatype Category = Implemented | Stubbed | Missing

  datatype DomainReport = DomainReport(domain: string, implemented: seq<string>, stubbed: seq<string>,
      missing: seq<string>, extensions: seq<string>)

  datatype Counts = Counts(implemented: nat, stubbed: nat, missing: nat, extensions: nat)

  datatype Report = Report(domains: seq<DomainReport>, upstreamMethods: nat, counts: Counts)

  function Join(domain: string, name: string): string { domain + "." + name }

  /** strings.Cut at the first dot. */
  function Cut(method': string): Option<(string, string)> {
    if method' == "" then None
    else if method'[0] == '.' then Some(("", method'[1..]))
    else match Cut(method'[1..])
         case None => None
         case Some((before, after)) => Some(([method'[0]] + before, after))
  }

  function NamesOf(k: Known, domain: string): seq<string> { if domain in k.upstream then k.upstream[domain] else [] }

  function MethodInUpstream(k: Known, m: string): bool {
    match Cut(m) case None => false case Some((domain, name)) => name in NamesOf(k, domain)
  }

  function MethodDomain(m: string): string {
    match Cut(m) case None => "Unknown" case Some((domain, _)) => domain
  }

  /** The methods with a status: stubs win over handled methods. */
  function Statuses(k: Known): set<string> { k.current + k.stubbedMethods }

  function CategoryOf(k: Known, domain: string, name: string): Category {
    if domain in k.stubbedDomains then Stubbed
    else if Join(domain, name) in k.stubbedMethods then Stubbed
    else if Join(domain, name) in k.current then Implemented
    else Missing
  }

  function ListOf(k: Known, domain: string, names: seq<string>, c: Category): seq<string> {
    if names == [] then [] else
    var n := |names| - 1;
    ListOf(k, domain, names[..n], c) + if CategoryOf(k, domain, names[n]) == c then [Join(domain, names[n])] else []
  }

  function Base(k: Known, domain: string, names: seq<string>): DomainReport {
    DomainReport(domain, ListOf(k, domain, names, Implemented), ListOf(k, domain, names, Stubbed),
        ListOf(k, domain, names, Missing), [])
  }

  // ---------------------------------------------------------------- counting

  function Plus(a: Counts, b: Counts): Counts {
    Counts(a.implemented + b.implemented, a.stubbed + b.stubbed, a.missing + b.missing, a.extensions + b.extensions)
  }

  const ZERO := Counts(0, 0, 0, 0)

  function Sizes(r: DomainReport): Counts { Counts(|r.implemented|, |r.stubbed|, |r.missing|, |r.extensions|) }

  function Total(rs: seq<DomainReport>): Counts { if rs == [] then ZERO else Plus(Sizes(rs[0]), Total(rs[1..])) }

  lemma PlusLaws(a: Counts, b: Counts, c: Counts)
    ensures Plus(ZERO, a) == a && Plus(a, b) == Plus(b, a) && Plus(Plus(a, b), c) == Plus(a, Plus(b, c))
  {}

  lemma {:induction false} TotalAppend(a: seq<DomainReport>, b: seq<DomainReport>)
    ensures Total(a + b) == Plus(Total(a), Total(b))
  {
    hide Plus, Sizes;
    if a == [] {
      assert a + b == b;
      PlusLaws(Total(b), ZERO, ZERO);
    } else {
      TotalAppend(a[1..], b);
      assert (a + b)[1..] == a[1..] + b;
      PlusLaws(Sizes(a[0]), Total(a[1..]), Total(b));
    }
  }

  lemma TotalOne(r: DomainReport)
    ensures Total([r]) == Sizes(r)
  {
    assert [r][1..] == [] && Total([]) == ZERO;
    PlusLaws(Sizes(r), ZERO, ZERO);
    hide Sizes, Plus;
  }

  lemma TotalFront(r: DomainReport, rs: seq<DomainReport>)
    ensures Total([r] + rs) == Plus(Sizes(r), Total(rs))
  {
    assert ([r] + rs)[1..] == rs;
  }

  /** Taking out one report takes out its sizes. */
  lemma TotalWithout(rs: seq<DomainReport>, i: nat)
    requires i < |rs|
    ensures Total(rs) == Plus(Sizes(rs[i]), Total(rs[..i] + rs[i + 1..]))
  {
    hide Plus, Sizes, Total;
    var before, after := rs[..i], rs[i + 1..];
    assert rs == before + ([rs[i]] + after);
    TotalAppend(before, [rs[i]] + after);
    TotalFront(rs[i], after);
    TotalAppend(before, after);
    PlusLaws(Total(before), Sizes(rs[i]), Total(after));
    PlusLaws(Sizes(rs[i]), Total(before), Total(after));
  }

  /** The total does not depend on the order. */
  lemma {:induction false} TotalPermutes(a: seq<DomainReport>, b: seq<DomainReport>)
    requires multiset(a) == multiset(b)
    ensures Total(a) == Total(b)
    decreases |a|
  {
    hide Plus, Sizes;
    if a == [] {
      assert |multiset(b)| == |b| == 0;
    } else {
      assert a[0] in multiset(b);
      var i :| 0 <= i < |b| && b[i] == a[0];
      SameRest(a, b, i);
      TotalPermutes(a[1..], b[..i] + b[i + 1..]);
      TotalWithout(b, i);
    }
  }

  lemma SameRest<T>(a: seq<T>, b: seq<T>, i: nat)
    requires a != [] && i < |b| && b[i] == a[0] && multiset(a) == multiset(b)
    ensures multiset(a[1..]) == multiset(b[..i] + b[i + 1..])
  {
    assert b == b[..i] + ([b[i]] + b[i + 1..]) && a == [a[0]] + a[1..];
    assert multiset(a[1..]) == multiset(a) - multiset{a[0]};
  }

  // ---------------------------------------------------------------- the partition

  lemma ListOfSnoc(k: Known, domain: string, names: seq<string>, c: Category)
    requires names != []
    ensures var n := |names| - 1; var m := Join(domain, names[n]);
      multiset(ListOf(k, domain, names, c)) == multiset(ListOf(k, domain, names[..n], c))
        + if CategoryOf(k, domain, names[n]) == c then multiset{m} else multiset{}
  {
    hide CategoryOf, Join;
  }

  /** A name is counted in the list of its category as often as the domain lists it, and in no other. */
  lemma {:induction false} LandsInItsCategory(k: Known, domain: string, names: seq<string>, c: Category, name: string)
    ensures multiset(ListOf(k, domain, names, c))[Join(domain, name)]
         == if CategoryOf(k, domain, name) == c then multiset(names)[name] else 0
  {
    hide CategoryOf, Join;
    if names != [] {
      var n := |names| - 1;
      LandsInItsCategory(k, domain, names[..n], c, name);
      assert names == names[..n] + [names[n]];
      assert multiset(names) == multiset(names[..n]) + multiset{names[n]};
      JoinInjective(domain, name, names[n]);
      ListOfSnoc(k, domain, names, c);
    }
  }

  lemma JoinInjective(domain: string, a: string, b: string)
    ensures Join(domain, a) == Join(domain, b) ==> a == b
  {
    assert Join(domain, a)[|domain| + 1..] == a && Join(domain, b)[|domain| + 1..] == b;
  }

  lemma {:induction false} ListsCoverNames(k: Known, domain: string, names: seq<string>)
    ensures |ListOf(k, domain, names, Implemented)| + |ListOf(k, domain, names, Stubbed)|
        + |ListOf(k, domain, names, Missing)| == |names|
  {
    if names != [] { ListsCoverNames(k, domain, names[..|names| - 1]); }
  }

  predicate DotFree(s: string) { '.' !in s }

  lemma {:induction false} CutJoin(domain: string, name: string)
    requires DotFree(domain)
    ensures Cut(Join(domain, name)) == Some((domain, name))
  {
    if domain == "" {
      assert Join(domain, name)[1..] == name;
    } else {
      CutJoin(domain[1..], name);
      assert Join(domain, name)[1..] == Join(domain[1..], name);
      assert domain == [domain[0]] + domain[1..];
    }
  }

  lemma {:induction false} CutDotted(domain: string, name: string)
    requires !DotFree(domain)
    ensures Cut(domain).Some? && Cut(Join(domain, name)) == Some((Cut(domain).value.0, Join(Cut(domain).value.1, name)))
  {
    if domain[0] == '.' {
      assert Join(domain, name)[1..] == Join(domain[1..], name);
    } else {
      assert domain == [domain[0]] + domain[1..];
      CutDotted(domain[1..], name);
      assert Join(domain, name)[1..] == Join(domain[1..], name);
    }
  }

  /**
   An upstream method is recognised as one, and so kept out of the extensions, exactly when its
   domain has no dot, or the rest of a dotted domain and the name are listed under its first part.
   */
  lemma RecognisedIff(k: Known, domain: string, name: string)
    requires name in NamesOf(k, domain)
    ensures MethodInUpstream(k, Join(domain, name))
       <==> DotFree(domain) || (Cut(domain).Some? && Join(Cut(domain).value.1, name) in NamesOf(k, Cut(domain).value.0))
  {
    if DotFree(domain) { CutJoin(domain, name); } else { CutDotted(domain, name); }
  }

  // ---------------------------------------------------------------- Analyze

  /** `list` holds each extension of `domain` among `done` once. */
  ghost predicate ExtensionsOf(k: Known, domain: string, done: set<string>, list: seq<string>) {
    && Distinct(list)
    && (forall m :: m in list <==> m in done && !MethodInUpstream(k, m) && MethodDomain(m) == domain)
  }

  /** The reports so far, one for each domain met: upstream part complete, extensions those among `done`. */
  ghost predicate Built(k: Known, rs: seq<DomainReport>, at: map<string, nat>, done: set<string>) {
    && (forall i | 0 <= i < |rs| :: rs[i].domain in at && at[rs[i].domain] == i)
    && (forall d | d in at :: at[d] < |rs| && rs[at[d]].domain == d)
    && (forall i | 0 <= i < |rs| ::
          && rs[i].(extensions := []) == Base(k, rs[i].domain, NamesOf(k, rs[i].domain))
          && ExtensionsOf(k, rs[i].domain, done, rs[i].extensions))
  }

  /** The inner loop over the names of one domain. */
  method ReportDomain(k: Known, domain: string) returns (report: DomainReport, counts: Counts)
    ensures report == Base(k, domain, NamesOf(k, domain)) && counts == Sizes(report)
  {
    report, counts := DomainReport(domain, [], [], [], []), ZERO;
    var names := NamesOf(k, domain);
    var i := 0;
    while i < |names|
      invariant 0 <= i <= |names|
      invariant report == Base(k, domain, names[..i]) && counts == Sizes(report)
    {
      var m := Join(domain, names[i]);
      assert names[..i + 1][..i] == names[..i];
      if domain in k.stubbedDomains {
        report := report.(stubbed := report.stubbed + [m]);
        counts := counts.(stubbed := counts.stubbed + 1);
      } else if m in k.stubbedMethods {
        report := report.(stubbed := report.stubbed + [m]);
        counts := counts.(stubbed := counts.stubbed + 1);
      } else if m in k.current {
        report := report.(implemented := report.implemented + [m]);
        counts := counts.(implemented := counts.implemented + 1);
      } else {
        report := report.(missing := report.missing + [m]);
        counts := counts.(missing := counts.missing + 1);
      }
      i := i + 1;
    }
    assert names[..i] == names;
  }

  /** Replacing one report changes the total by the difference in size. */
  lemma DomainsTotal(rs: seq<DomainReport>, i: nat, r: DomainReport)
    requires i < |rs|
    ensures Plus(Total(rs[i := r]), Sizes(rs[i])) == Plus(Total(rs), Sizes(r))
  {
    hide Plus, Sizes;
    TotalWithout(rs, i);
    TotalWithout(rs[i := r], i);
    assert rs[i := r][..i] == rs[..i] && rs[i := r][i + 1..] == rs[i + 1..];
    var rest := Total(rs[..i] + rs[i + 1..]);
    PlusLaws(Sizes(r), rest, Sizes(rs[i]));
    PlusLaws(rest, Sizes(rs[i]), Sizes(r));
    PlusLaws(Sizes(rs[i]), rest, Sizes(r));
    PlusLaws(Sizes(r), Plus(rest, Sizes(rs[i])), ZERO);
  }

  lemma NoReports(k: Known)
    ensures Built(k, [], map[], {}) && Total([]) == ZERO
  {}

  lemma OneMoreReport(k: Known, rs: seq<DomainReport>, at: map<string, nat>, d: string)
    requires Built(k, rs, at, {}) && d !in at
    ensures var report := Base(k, d, NamesOf(k, d));
      Built(k, rs + [report], at[d := |rs|], {}) && Total(rs + [report]) == Plus(Total(rs), Sizes(report))
  {
    var report := Base(k, d, NamesOf(k, d));
    OneTotal(rs, report);
    assert report.domain == d && report.extensions == [] && ExtensionsOf(k, d, {}, []);
    hide Total, Sizes, Plus, Built, Base, ExtensionsOf, NamesOf;
    AddReport(k, rs, at, {}, report);
  }

  /** The outer loop: one report for each upstream domain, in any order. */
  method ReportUpstream(k: Known) returns (rs: seq<DomainReport>, at: map<string, nat>, counts: Counts, methods: nat)
    ensures Built(k, rs, at, {}) && at.Keys == k.upstream.Keys
    ensures counts == Total(rs) && methods == counts.implemented + counts.stubbed + counts.missing
    ensures counts.extensions == 0
  {
    hide Built, Total, ListOf;
    rs, at, counts, methods := [], map[], ZERO, 0;
    NoReports(k);
    var todo := k.upstream.Keys;
    while todo != {}
      invariant todo <= k.upstream.Keys && at.Keys == k.upstream.Keys - todo
      invariant Built(k, rs, at, {})
      invariant counts == Total(rs) && counts.extensions == 0
      invariant methods == counts.implemented + counts.stubbed + counts.missing
      decreases todo
    {
      var d :| d in todo;
      todo := todo - {d};
      var report, sizes := ReportDomain(k, d);
      ListsCoverNames(k, d, NamesOf(k, d));
      OneMoreReport(k, rs, at, d);
      at := at[d := |rs|];
      rs := rs + [report];
      counts := Plus(counts, sizes);
      methods := methods + |NamesOf(k, d)|;
    }
  }

  /** Every domain that has a list to hold is among the reports. */
  ghost predicate Met(k: Known, at: map<string, nat>, done: set<string>) {
    k.upstream.Keys <= at.Keys && forall m | m in done && !MethodInUpstream(k, m) :: MethodDomain(m) in at
  }

  function Empty(domain: string): DomainReport { DomainReport(domain, [], [], [], []) }

  lemma NewDomain(k: Known, rs: seq<DomainReport>, at: map<string, nat>, done: set<string>, d: string)
    requires Built(k, rs, at, done) && Met(k, at, done) && d !in at
    ensures Built(k, rs + [Empty(d)], at[d := |rs|], done) && Met(k, at[d := |rs|], done)
    ensures Total(rs + [Empty(d)]) == Total(rs)
  {
    NothingListed(k, d);
    NoneSoFar(k, at, done, d);
    hide MethodInUpstream, MethodDomain, Base, Total, ExtensionsOf;
    TotalAppend(rs, [Empty(d)]);
    EmptyTotal(Total(rs), d);
    AddReport(k, rs, at, done, Empty(d));
  }

  lemma NoneSoFar(k: Known, at: map<string, nat>, done: set<string>, d: string)
    requires Met(k, at, done) && d !in at
    ensures ExtensionsOf(k, d, done, []) && Met(k, at[d := 0], done) && d !in k.upstream
  {
    hide MethodInUpstream, MethodDomain;
  }

  lemma AddReport(k: Known, rs: seq<DomainReport>, at: map<string, nat>, done: set<string>, r: DomainReport)
    requires Built(k, rs, at, done) && r.domain !in at
    requires r.(extensions := []) == Base(k, r.domain, NamesOf(k, r.domain))
        && ExtensionsOf(k, r.domain, done, r.extensions)
    ensures Built(k, rs + [r], at[r.domain := |rs|], done)
  {
    hide Base, ExtensionsOf, NamesOf;
  }

  lemma NothingListed(k: Known, d: string)
    requires d !in k.upstream
    ensures Base(k, d, NamesOf(k, d)) == Empty(d)
  {}

  lemma EmptyTotal(sum: Counts, d: string)
    ensures Plus(sum, Total([Empty(d)])) == sum
  {
    TotalOne(Empty(d));
    hide Total;
  }

  lemma OneMoreExtension(k: Known, rs: seq<DomainReport>, at: map<string, nat>, done: set<string>, m: string)
    requires Built(k, rs, at, done) && m !in done && !MethodInUpstream(k, m) && MethodDomain(m) in at
    ensures at[MethodDomain(m)] < |rs|
    ensures var i := at[MethodDomain(m)]; var rs' := rs[i := rs[i].(extensions := rs[i].extensions + [m])];
      && Built(k, rs', at, done + {m})
      && Total(rs') == Total(rs).(extensions := Total(rs).extensions + 1)
  {
    hide MethodInUpstream, MethodDomain, Base;
    var i := at[MethodDomain(m)];
    DomainsTotal(rs, i, rs[i].(extensions := rs[i].extensions + [m]));
  }

  lemma NoExtension(k: Known, rs: seq<DomainReport>, at: map<string, nat>, done: set<string>, m: string)
    requires Built(k, rs, at, done) && Met(k, at, done) && MethodInUpstream(k, m)
    ensures Built(k, rs, at, done + {m}) && Met(k, at, done + {m})
  {
    hide MethodInUpstream, MethodDomain, Base;
  }

  /** The loop over the statuses: what is not upstream goes to the extensions of its domain, made if need be. */
  method AddExtensions(k: Known, reports: seq<DomainReport>, places: map<string, nat>, before: Counts)
    returns (rs: seq<DomainReport>, at: map<string, nat>, counts: Counts)
    requires Built(k, reports, places, {}) && before == Total(reports) && places.Keys == k.upstream.Keys
    ensures Built(k, rs, at, Statuses(k)) && Met(k, at, Statuses(k)) && counts == Total(rs)
    ensures counts == before.(extensions := counts.extensions)
    ensures forall d | d in at ::
      d in k.upstream || exists m :: m in Statuses(k) && !MethodInUpstream(k, m) && MethodDomain(m) == d
  {
    hide Built, Total, MethodInUpstream, MethodDomain, Met;
    rs, at, counts := reports, places, before;
    ghost var done: set<string> := {};
    var todo := Statuses(k);
    StartMet(k, at);
    while todo != {}
      invariant todo <= Statuses(k) && done == Statuses(k) - todo
      invariant Built(k, rs, at, done) && Met(k, at, done)
      invariant counts == Total(rs) && counts == before.(extensions := counts.extensions)
      invariant forall d | d in at ::
        d in k.upstream || exists m :: m in Statuses(k) && !MethodInUpstream(k, m) && MethodDomain(m) == d
      decreases todo
    {
      var m :| m in todo;
      todo := todo - {m};
      if MethodInUpstream(k, m) {
        NoExtension(k, rs, at, done, m);
      } else {
        var d := MethodDomain(m);
        if d !in at {
          NewDomain(k, rs, at, done, d);
          at := at[d := |rs|];
          rs := rs + [Empty(d)];
        }
        OneMoreExtension(k, rs, at, done, m);
        OneMoreMet(k, at, done, m);
        var i := at[d];
        rs := rs[i := rs[i].(extensions := rs[i].extensions + [m])];
        counts := counts.(extensions := counts.extensions + 1);
      }
      done := done + {m};
    }
    assert done == Statuses(k);
  }

  lemma StartMet(k: Known, at: map<string, nat>)
    requires at.Keys == k.upstream.Keys
    ensures Met(k, at, {})
  {}

  lemma OneMoreMet(k: Known, at: map<string, nat>, done: set<string>, m: string)
    requires Met(k, at, done) && MethodDomain(m) in at
    ensures Met(k, at, done + {m})
  {}

  // ---------------------------------------------------------------- the finished report

  function Id(s: string): string { s }

  function SortLists(r: DomainReport): DomainReport {
    DomainReport(r.domain, Sort(r.implemented, Id), Sort(r.stubbed, Id), Sort(r.missing, Id), Sort(r.extensions, Id))
  }

  function DomainOf(r: DomainReport): string { r.domain }

  /** Each report is that of its domain, its lists sorted. */
  ghost predicate DomainRight(k: Known, r: DomainReport) {
    && multiset(r.implemented) == multiset(ListOf(k, r.domain, NamesOf(k, r.domain), Implemented))
    && multiset(r.stubbed) == multiset(ListOf(k, r.domain, NamesOf(k, r.domain), Stubbed))
    && multiset(r.missing) == multiset(ListOf(k, r.domain, NamesOf(k, r.domain), Missing))
    && ExtensionsOf(k, r.domain, Statuses(k), r.extensions)
    && SortedBy(r.implemented, Id) && SortedBy(r.stubbed, Id) && SortedBy(r.missing, Id) && SortedBy(r.extensions, Id)
  }

  /** The report lists every domain once, in order: the upstream ones and those of the extensions. */
  ghost predicate DomainsRight(k: Known, rs: seq<DomainReport>) {
    && SortedBy(rs, DomainOf) && DistinctBy(rs, DomainOf)
    && (forall d :: Listed(rs, d) <==>
                      d in k.upstream
                      || exists m :: m in Statuses(k) && !MethodInUpstream(k, m) && MethodDomain(m) == d)
  }

  lemma SortListsRight(k: Known, r: DomainReport)
    requires r.(extensions := []) == Base(k, r.domain, NamesOf(k, r.domain))
        && ExtensionsOf(k, r.domain, Statuses(k), r.extensions)
    ensures DomainRight(k, SortLists(r)) && Sizes(SortLists(r)) == Sizes(r)
  {
    hide ListOf, Sort;
    var s := SortLists(r);
    SameSize(s.implemented, r.implemented);
    SameSize(s.stubbed, r.stubbed);
    SameSize(s.missing, r.missing);
    SameSize(s.extensions, r.extensions);
    DistinctPermutes(r.extensions, s.extensions, Id);
    forall m ensures m in s.extensions <==> m in r.extensions {
      assert m in s.extensions <==> m in multiset(s.extensions);
      assert m in r.extensions <==> m in multiset(r.extensions);
    }
  }

  lemma SameSize<T>(a: seq<T>, b: seq<T>)
    requires multiset(a) == multiset(b)
    ensures |a| == |b|
  {
    assert |multiset(a)| == |a| && |multiset(b)| == |b|;
  }

  lemma SortedDomainsRight(k: Known, rs: seq<DomainReport>, out: seq<DomainReport>, at: map<string, nat>)
    requires Built(k, rs, at, Statuses(k)) && Met(k, at, Statuses(k))
    requires forall d | d in at ::
      d in k.upstream || exists m :: m in Statuses(k) && !MethodInUpstream(k, m) && MethodDomain(m) == d
    requires |out| == |rs| && forall i | 0 <= i < |rs| :: out[i].domain == rs[i].domain
    ensures DomainsRight(k, Sort(out, DomainOf))
  {
    hide Sort, Built, MethodInUpstream, MethodDomain, Met;
    var sorted := Sort(out, DomainOf);
    BuiltDistinct(k, rs, out, at);
    DistinctPermutes(out, sorted, DomainOf);
    forall d | d in k.upstream || exists m :: m in Statuses(k) && !MethodInUpstream(k, m) && MethodDomain(m) == d
      ensures d in at
    { MetHas(k, at, d); }
    hide DistinctBy, SortedBy, Listed;
    forall d ensures Listed(sorted, d) <==> d in at {
      ListedPermutes(out, sorted, d);
      ListedIsAt(k, rs, out, at, d);
    }
  }

  lemma BuiltDistinct(k: Known, rs: seq<DomainReport>, out: seq<DomainReport>, at: map<string, nat>)
    requires Built(k, rs, at, Statuses(k)) && |out| == |rs| && forall i | 0 <= i < |rs| :: out[i].domain == rs[i].domain
    ensures DistinctBy(out, DomainOf)
  {
    hide Base, ExtensionsOf;
  }

  lemma MetHas(k: Known, at: map<string, nat>, d: string)
    requires Met(k, at, Statuses(k))
    requires d in k.upstream || exists m :: m in Statuses(k) && !MethodInUpstream(k, m) && MethodDomain(m) == d
    ensures d in at
  {
    hide MethodInUpstream, MethodDomain;
  }

  ghost predicate Listed(rs: seq<DomainReport>, d: string) { exists i :: 0 <= i < |rs| && rs[i].domain == d }

  lemma ListedPermutes(a: seq<DomainReport>, b: seq<DomainReport>, d: string)
    requires multiset(a) == multiset(b)
    ensures Listed(a, d) <==> Listed(b, d)
  {
    if Listed(a, d) {
      var i :| 0 <= i < |a| && a[i].domain == d;
      assert a[i] in multiset(b);
      var j :| 0 <= j < |b| && b[j] == a[i];
    }
    if Listed(b, d) {
      var i :| 0 <= i < |b| && b[i].domain == d;
      assert b[i] in multiset(a);
      var j :| 0 <= j < |a| && a[j] == b[i];
    }
  }

  lemma ListedIsAt(k: Known, rs: seq<DomainReport>, out: seq<DomainReport>, at: map<string, nat>, d: string)
    requires Built(k, rs, at, Statuses(k)) && |out| == |rs| && forall i | 0 <= i < |rs| :: out[i].domain == rs[i].domain
    ensures Listed(out, d) <==> d in at
  {
    hide Base, ExtensionsOf;
    if d in at { assert out[at[d]].domain == d; }
  }

  /**
   The coverage report partitions the methods: each domain's three upstream lists are what their
   names fall into, each other known method is an extension of its domain, once; the counters are
   the sizes of the lists and add up; everything is sorted.
   */
  method Analyze(k: Known) returns (report: Report)
    ensures forall i | 0 <= i < |report.domains| :: DomainRight(k, report.domains[i])
    ensures DomainsRight(k, report.domains)
    ensures report.counts == Total(report.domains)
    ensures report.upstreamMethods == report.counts.implemented + report.counts.stubbed + report.counts.missing
  {
    var rs, at, counts, methods := ReportUpstream(k);
    rs, at, counts := AddExtensions(k, rs, at, counts);
    var out := FinishLists(k, rs, at);
    SortedDomainsRight(k, rs, out, at);
    TotalPermutes(Sort(out, DomainOf), out);
    report := Report(Sort(out, DomainOf), methods, counts);
    hide DomainRight, DomainsRight, Sort, Total;
    forall i | 0 <= i < |report.domains| ensures DomainRight(k, report.domains[i]) {
      assert report.domains[i] in multiset(out);
    }
  }

  /** The last loop, which sorts the lists of each domain. */
  method FinishLists(k: Known, rs: seq<DomainReport>, at: map<string, nat>) returns (out: seq<DomainReport>)
    requires Built(k, rs, at, Statuses(k))
    ensures |out| == |rs| && Total(out) == Total(rs)
    ensures forall i | 0 <= i < |rs| :: out[i].domain == rs[i].domain && DomainRight(k, out[i])
  {
    hide Built, DomainRight, Total, Sizes, SortLists, Plus;
    out := [];
    var i := 0;
    assert rs[..0] == out;
    while i < |rs|
      invariant 0 <= i <= |rs| && |out| == i && Total(out) == Total(rs[..i])
      invariant forall j | 0 <= j < i :: out[j].domain == rs[j].domain && DomainRight(k, out[j])
    {
      BuiltAt(k, rs, at, i);
      SortListsRight(k, rs[i]);
      assert rs[..i + 1] == rs[..i] + [rs[i]];
      OneTotal(rs[..i], rs[i]);
      OneTotal(out, SortLists(rs[i]));
      SortKeepsDomain(rs[i]);
      out := out + [SortLists(rs[i])];
      i := i + 1;
    }
    assert rs[..i] == rs;
  }

  lemma BuiltAt(k: Known, rs: seq<DomainReport>, at: map<string, nat>, i: nat)
    requires Built(k, rs, at, Statuses(k)) && i < |rs|
    ensures rs[i].(extensions := []) == Base(k, rs[i].domain, NamesOf(k, rs[i].domain))
    ensures ExtensionsOf(k, rs[i].domain, Statuses(k), rs[i].extensions)
  {
    hide Base, ExtensionsOf;
  }

  lemma SortKeepsDomain(r: DomainReport)
    ensures SortLists(r).domain == r.domain
  {}

  lemma OneTotal(rs: seq<DomainReport>, r: DomainReport)
    ensures Total(rs + [r]) == Plus(Total(rs), Sizes(r))
  {
    hide Total, Sizes, Plus;
    TotalAppend(rs, [r]);
    TotalOne(r);
  }

  /**
   With dot-free domains that list no name twice, every upstream method is in exactly one of its
   domain's three lists, exactly once, and is nobody's extension.
   */
  lemma EachMethodOnce(k: Known, r: DomainReport, name: string, c: Category)
    requires DomainRight(k, r) && name in NamesOf(k, r.domain) && DotFree(r.domain) && Distinct(NamesOf(k, r.domain))
    ensures var list := match c case Implemented => r.implemented case Stubbed => r.stubbed case Missing => r.missing;
      multiset(list)[Join(r.domain, name)] == if CategoryOf(k, r.domain, name) == c then 1 else 0
    ensures forall d, list | ExtensionsOf(k, d, Statuses(k), list) :: Join(r.domain, name) !in list
  {
    hide CategoryOf;
    var names := NamesOf(k, r.domain);
    LandsInItsCategory(k, r.domain, names, c, name);
    OnlyOnce(names, name);
    RecognisedIff(k, r.domain, name);
  }

  lemma {:induction false} OnlyOnce(names: seq<string>, name: string)
    requires Distinct(names) && name in names
    ensures multiset(names)[name] == 1
  {
    assert name in multiset(names);
    if multiset(names)[name] >= 2 { var i, j := TwoIsTwice(names, name); }
  }

  // ---------------------------------------------------------------- the report in plain terms

  lemma {:induction false} CutMeaning(m: string)
    ensures Cut(m) == None <==> '.' !in m
    ensures Cut(m).Some? ==> var (domain, name) := Cut(m).value; DotFree(domain) && m == domain + "." + name
  {
    if m != "" && m[0] != '.' {
      CutMeaning(m[1..]);
      assert m == [m[0]] + m[1..];
    } else if m != "" {
      assert m == "" + "." + m[1..];
    }
  }

  /**
   A method goes to the extensions of the domain before its first dot, or of "Unknown" if it has none,
   unless that domain lists it.
   */
  lemma ExtensionOfIff(k: Known, m: string, domain: string)
    ensures !MethodInUpstream(k, m) && MethodDomain(m) == domain <==>
      if '.' !in m then domain == "Unknown"
      else DotFree(domain) && domain + "." <= m
           && !(domain in k.upstream && m[|domain| + 1..] in k.upstream[domain])
  {
    CutMeaning(m);
    if '.' in m {
      var (d, name) := Cut(m).value;
      assert m[|d| + 1..] == name;
      if DotFree(domain) && domain + "." <= m {
        assert m[|domain|] == '.' && m[|d|] == '.';
        assert d == m[..|d|] && domain == m[..|domain|];
        assert forall j | 0 <= j < |d| :: d[j] == m[j] && d[j] != '.';
        assert forall j | 0 <= j < |domain| :: domain[j] == m[j] && domain[j] != '.';
      }
    }
  }

  /**
   What each list of a domain's report holds. A name of an upstream domain is listed as often as the
   domain has it: under the stubs if the domain or the method is a stub, else under the implemented
   ones if the bridge handles it, else under the missing ones. The extensions are the other methods
   with a status that belong to the domain.
   */
  lemma ReportMeaning(k: Known, r: DomainReport, name: string, m: string)
    requires DomainRight(k, r)
    ensures var full := r.domain + "." + name;
      var times := if r.domain in k.upstream then multiset(k.upstream[r.domain])[name] else 0;
      var stub := r.domain in k.stubbedDomains || full in k.stubbedMethods;
      && multiset(r.stubbed)[full] == (if stub then times else 0)
      && multiset(r.implemented)[full] == (if !stub && full in k.current then times else 0)
      && multiset(r.missing)[full] == (if !stub && full !in k.current then times else 0)
    ensures m in r.extensions <==>
      && (m in k.current || m in k.stubbedMethods)
      && (if '.' !in m then r.domain == "Unknown"
          else DotFree(r.domain) && r.domain + "." <= m
               && !(r.domain in k.upstream && m[|r.domain| + 1..] in k.upstream[r.domain]))
    ensures Distinct(r.extensions)
  {
    var names := NamesOf(k, r.domain);
    LandsInItsCategory(k, r.domain, names, Stubbed, name);
    LandsInItsCategory(k, r.domain, names, Implemented, name);
    LandsInItsCategory(k, r.domain, names, Missing, name);
    ExtensionOfIff(k, m, r.domain);
    hide MethodInUpstream, MethodDomain, ListOf, DotFree, SortedBy;
  }

  /** The lists hold names of their domain only. */
  lemma {:induction false} ListedAreOfTheDomain(k: Known, domain: string, names: seq<string>, c: Category, m: string)
    requires m in ListOf(k, domain, names, c)
    ensures domain + "." <= m && m[|domain| + 1..] in names
  {
    if names != [] {
      var n := |names| - 1;
      if m in ListOf(k, domain, names[..n], c) {
        ListedAreOfTheDomain(k, domain, names[..n], c, m);
        assert m[|domain| + 1..] in names[..n];
      } else {
        assert m == domain + "." + names[n] && m[|domain| + 1..] == names[n];
      }
    }
  }

  /** One list of every report, one after the other. */
  function Gathered(rs: seq<DomainReport>, list: DomainReport -> seq<string>): seq<string> {
    if rs == [] then [] else list(rs[0]) + Gathered(rs[1..], list)
  }

  /** Each counter of the summary is the number of entries in the lists of its kind. */
  lemma {:induction false} CountersCount(rs: seq<DomainReport>)
    ensures Total(rs).implemented == |Gathered(rs, (r: DomainReport) => r.implemented)|
    ensures Total(rs).stubbed == |Gathered(rs, (r: DomainReport) => r.stubbed)|
    ensures Total(rs).missing == |Gathered(rs, (r: DomainReport) => r.missing)|
    ensures Total(rs).extensions == |Gathered(rs, (r: DomainReport) => r.extensions)|
  {
    if rs != [] { CountersCount(rs[1..]); }
  }

  const DOTTED := Known(map["A.B" := ["c"]], {"A.B.c"}, {}, {})

  /** A dotted domain shows why: its one method is listed as implemented and as an extension of "A". */
  lemma DottedDomainListsTwice()
    ensures CategoryOf(DOTTED, "A.B", "c") == Implemented && "A.B.c" in Statuses(DOTTED)
    ensures !MethodInUpstream(DOTTED, "A.B.c") && MethodDomain("A.B.c") == "A"
  {
    assert Join("A.B", "c") == "A.B.c";
    assert "A.B.c"[1..] == ".B.c" && ".B.c"[1..] == "B.c";
    assert Cut(".B.c") == Some(("", "B.c"));
    assert ['A'] + "" == "A";
    assert Cut("A.B.c") == Some(("A", "B.c"));
    assert "A.B" != "A";
  }
}

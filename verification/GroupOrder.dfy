/** What GroupRuns returns: the populated groups, sorted by scenario and library. */
module GroupOrder {
  import opened Analyzer
  import opened Groups

  datatype Entry = Entry(group: Group, stats: GroupStats)

  // ----- the order of strings and labels

  /** Go's `<` on strings. */
  predicate LessText(a: string, b: string) {
    b != [] && (a == [] || a[0] < b[0] || (a[0] == b[0] && LessText(a[1..], b[1..])))
  }

  lemma {:induction false} TextTotal(a: string, b: string)
    ensures LessText(a, b) || a == b || LessText(b, a)
    ensures !(LessText(a, b) && LessText(b, a)) && !LessText(a, a)
  {
    if a != [] && b != [] {
      TextTotal(a[1..], b[1..]);
      assert a == [a[0]] + a[1..] && b == [b[0]] + b[1..];
    }
    if a != [] { TextTotal(a[1..], a[1..]); }
  }

  lemma {:induction false} TextTransitive(a: string, b: string, c: string)
    requires LessText(a, b) && LessText(b, c)
    ensures LessText(a, c)
  {
    if a != [] && a[0] == b[0] && b[0] == c[0] { TextTransitive(a[1..], b[1..], c[1..]); }
  }

  /** `a` comes before `b`: up to some position they agree, and there `a` ends or has the smaller character. */
  ghost predicate Before(a: string, b: string) {
    exists k: nat :: k <= |a| && k <= |b| && a[..k] == b[..k] && (k == |a| < |b| || (k < |a| && k < |b| && a[k] < b[k]))
  }

  lemma {:induction false} LessTextMeans(a: string, b: string)
    ensures LessText(a, b) <==> Before(a, b)
  {
    if a != [] && b != [] && a[0] == b[0] {
      LessTextMeans(a[1..], b[1..]);
      if Before(a[1..], b[1..]) {
        var k: nat :| k <= |a[1..]| && k <= |b[1..]| && a[1..][..k] == b[1..][..k]
                      && (k == |a[1..]| < |b[1..]| || (k < |a[1..]| && k < |b[1..]| && a[1..][k] < b[1..][k]));
        assert a[..k + 1] == [a[0]] + a[1..][..k] && b[..k + 1] == [b[0]] + b[1..][..k];
      }
      if Before(a, b) {
        var k: nat :| k <= |a| && k <= |b| && a[..k] == b[..k] && (k == |a| < |b| || (k < |a| && k < |b| && a[k] < b[k]));
        assert a[1..][..k - 1] == a[..k][1..] && b[1..][..k - 1] == b[..k][1..];
      }
    } else if b != [] && (a == [] || a[0] < b[0]) {
      assert a[..0] == b[..0];
    }
  }

  /** Scenario first, then library. */
  predicate Less(a: Group, b: Group) {
    if a.scenario != b.scenario then LessText(a.scenario, b.scenario) else LessText(a.library, b.library)
  }

  predicate SameLabel(a: Group, b: Group) { a.scenario == b.scenario && a.library == b.library }

  lemma LessTotal(a: Group, b: Group)
    ensures Less(a, b) || SameLabel(a, b) || Less(b, a)
    ensures !(Less(a, b) && Less(b, a)) && !Less(a, a)
  {
    TextTotal(a.scenario, b.scenario);
    TextTotal(a.library, b.library);
    TextTotal(a.library, a.library);
  }

  lemma LessTransitive(a: Group, b: Group, c: Group)
    requires Less(a, b) && Less(b, c)
    ensures Less(a, c)
  {
    TextTotal(a.scenario, b.scenario);
    TextTotal(b.scenario, c.scenario);
    if a.scenario != b.scenario && b.scenario != c.scenario {
      TextTransitive(a.scenario, b.scenario, c.scenario);
      TextTotal(a.scenario, c.scenario);
    } else if a.scenario == b.scenario == c.scenario {
      TextTransitive(a.library, b.library, c.library);
    }
  }

  ghost predicate Strict(es: seq<Entry>) {
    forall i: nat, j: nat | i < j < |es| :: Less(es[i].group, es[j].group)
  }

  // ----- sorting

  /** Insert into a sorted list, behind everything not greater: the sort is stable. */
  function Insert(e: Entry, es: seq<Entry>): seq<Entry> {
    if es == [] || Less(e.group, es[0].group) then [e] + es else [es[0]] + Insert(e, es[1..])
  }

  lemma {:induction false} InsertStrict(e: Entry, es: seq<Entry>)
    requires Strict(es) && forall i: nat | i < |es| :: !SameLabel(e.group, es[i].group)
    ensures Strict(Insert(e, es)) && multiset(Insert(e, es)) == multiset(es) + multiset{e}
  {
    if es == [] || Less(e.group, es[0].group) {
      InsertFirst(e, es);
    } else {
      LessTotal(e.group, es[0].group);
      var rest := es[1..];
      assert forall i: nat | i < |rest| :: rest[i] == es[i + 1];
      InsertStrict(e, rest);
      assert es == [es[0]] + rest;
      ConsStrict(es[0], Insert(e, rest), rest, e);
    }
  }

  lemma InsertFirst(e: Entry, es: seq<Entry>)
    requires Strict(es) && (es == [] || Less(e.group, es[0].group))
    ensures Strict([e] + es) && multiset([e] + es) == multiset(es) + multiset{e}
  {
    forall j: nat | j < |es| ensures Less(e.group, es[j].group) {
      if j > 0 { LessTransitive(e.group, es[0].group, es[j].group); }
    }
    var n := [e] + es;
    assert forall i: nat | 0 < i < |n| :: n[i] == es[i - 1];
  }

  lemma ConsStrict(a: Entry, es: seq<Entry>, rest: seq<Entry>, e: Entry)
    requires Strict(es) && multiset(es) == multiset(rest) + multiset{e}
    requires Less(a.group, e.group) && forall i: nat | i < |rest| :: Less(a.group, rest[i].group)
    ensures Strict([a] + es)
  {
    var n := [a] + es;
    forall j: nat | j < |es| ensures Less(a.group, es[j].group) {
      assert es[j] in multiset(es);
      assert es[j] == e || es[j] in rest;
    }
    assert forall i: nat | 0 < i < |n| :: n[i] == es[i - 1];
  }

  // ----- the report

  /** The entries are the buckets with their statistics, each once, in order. */
  ghost predicate IsGrouping(out: seq<Entry>, byKey: map<string, Group>) {
    && Strict(out)
    && (forall i: nat | i < |out| :: out[i].group in byKey.Values && Aggregates(out[i].stats, out[i].group.runs))
    && (forall k | k in byKey :: Listed(out, byKey[k]))
  }

  ghost predicate Listed(out: seq<Entry>, g: Group) {
    exists i: nat :: i < |out| && out[i].group == g
  }

  /** The entries are the groups of `runs`. */
  ghost predicate IsReport(out: seq<Entry>, runs: seq<Summary>) {
    exists byKey: map<string, Group> :: Bucketed(byKey, runs) && IsGrouping(out, byKey)
  }

  /** The report lists the groups by scenario and, within a scenario, by library, each label once. */
  lemma ReportOrder(out: seq<Entry>, runs: seq<Summary>, i: nat, j: nat)
    requires IsReport(out, runs) && i < j < |out|
    ensures var a, b := out[i].group, out[j].group;
            Before(a.scenario, b.scenario) || (a.scenario == b.scenario && Before(a.library, b.library))
  {
    var a, b := out[i].group, out[j].group;
    assert Less(a, b);
    LessTextMeans(a.scenario, b.scenario);
    LessTextMeans(a.library, b.library);
  }

  /**
   An entry is labelled by its first run, has exactly the runs whose library and scenario joined by "|" are those of
   its label, as often as they were given, and carries their statistics.
   */
  lemma EntryContents(out: seq<Entry>, runs: seq<Summary>, i: nat, r: Summary)
    requires IsReport(out, runs) && i < |out|
    ensures var g := out[i].group;
            && g.runs != [] && g.library == g.runs[0].library && g.scenario == g.runs[0].scenario && Aggregates(out[i].stats, g.runs)
            && multiset(g.runs)[r] == if r.library + "|" + r.scenario == g.library + "|" + g.scenario then multiset(runs)[r] else 0
  {
    var byKey: map<string, Group> :| Bucketed(byKey, runs) && IsGrouping(out, byKey);
    assert out[i].group in byKey.Values;
    var k :| k in byKey && byKey[k] == out[i].group;
    WithMembers(runs, k);
    assert byKey[k].runs[0] in With(runs, k);
    WithCounts(runs, k, r);
  }

  /** Every run is in some entry. */
  lemma RunListed(out: seq<Entry>, runs: seq<Summary>, r: Summary) returns (i: nat)
    requires IsReport(out, runs) && r in runs
    ensures i < |out| && r in out[i].group.runs
  {
    var byKey: map<string, Group> :| Bucketed(byKey, runs) && IsGrouping(out, byKey);
    WithMembers(runs, KeyOf(r));
    assert Listed(out, byKey[KeyOf(r)]);
    i :| i < |out| && out[i].group == byKey[KeyOf(r)];
  }

  lemma {:induction false} WithCounts(runs: seq<Summary>, key: string, r: Summary)
    ensures multiset(With(runs, key))[r] == if KeyOf(r) == key then multiset(runs)[r] else 0
  {
    if runs != [] {
      var rest, last := runs[..|runs| - 1], runs[|runs| - 1];
      WithCounts(rest, key, r);
      assert runs == rest + [last];
    }
  }

  /** Different buckets have different labels. */
  lemma LabelsDiffer(byKey: map<string, Group>, runs: seq<Summary>, k: string, l: string)
    requires Bucketed(byKey, runs) && k in byKey && l in byKey && SameLabel(byKey[k], byKey[l])
    ensures k == l
  {
    WithMembers(runs, k);
    WithMembers(runs, l);
    assert byKey[k].runs[0] in With(runs, k) && byKey[l].runs[0] in With(runs, l);
  }

  /** The buckets are visited in arbitrary order. */
  method GroupRuns(runs: seq<Summary>) returns (out: seq<Entry>)
    ensures IsReport(out, runs)
  {
    var buckets := FillBuckets(runs);
    out := [];
    var left := buckets.Keys;
    while left != {}
      invariant left <= buckets.Keys && Partly(out, buckets, left)
      decreases |left|
    {
      var k :| k in left;
      var stats := PopulateGroupStats(buckets[k].runs);
      AddBucket(out, buckets, runs, left, k, stats);
      out := Insert(Entry(buckets[k], stats), out);
      left := left - {k};
    }
    assert IsGrouping(out, buckets);
  }

  /** The buckets outside `left` are listed. */
  ghost predicate Partly(out: seq<Entry>, byKey: map<string, Group>, left: set<string>) {
    && Strict(out)
    && (forall i: nat | i < |out| :: Aggregates(out[i].stats, out[i].group.runs) && exists k :: k in byKey && k !in left && out[i].group == byKey[k])
    && (forall k | k in byKey && k !in left :: Listed(out, byKey[k]))
  }

  lemma AddBucket(out: seq<Entry>, byKey: map<string, Group>, runs: seq<Summary>, left: set<string>, k: string, stats: GroupStats)
    requires Bucketed(byKey, runs) && Partly(out, byKey, left) && k in left && k in byKey && Aggregates(stats, byKey[k].runs)
    ensures Partly(Insert(Entry(byKey[k], stats), out), byKey, left - {k})
  {
    var e := Entry(byKey[k], stats);
    var n := Insert(e, out);
    forall i: nat | i < |out| ensures !SameLabel(e.group, out[i].group) {
      var l :| l in byKey && l !in left && out[i].group == byKey[l];
      if SameLabel(e.group, out[i].group) { LabelsDiffer(byKey, runs, k, l); }
    }
    InsertStrict(e, out);
    InsertMembers(out, n, e);
    forall i: nat | i < |n|
      ensures Aggregates(n[i].stats, n[i].group.runs) && exists l :: l in byKey && l !in left - {k} && n[i].group == byKey[l]
    {
      if n[i] == e { assert n[i].group == byKey[k]; }
    }
    forall l | l in byKey && l !in left - {k} ensures Listed(n, byKey[l]) {
      if l == k {
        ListedIn(n, e);
      } else {
        assert Listed(out, byKey[l]);
        var j: nat :| j < |out| && out[j].group == byKey[l];
        ListedIn(n, out[j]);
      }
    }
  }

  lemma InsertMembers(es: seq<Entry>, n: seq<Entry>, e: Entry)
    requires multiset(n) == multiset(es) + multiset{e}
    ensures e in n && (forall j: nat | j < |es| :: es[j] in n)
    ensures forall i: nat | i < |n| :: n[i] == e || exists j: nat :: j < |es| && n[i] == es[j]
  {
    assert e in multiset(n);
    forall j: nat | j < |es| ensures es[j] in n { assert es[j] in multiset(n); }
    forall i: nat | i < |n| ensures n[i] == e || exists j: nat :: j < |es| && n[i] == es[j] {
      assert n[i] in multiset(n);
      assert n[i] == e || n[i] in es;
    }
  }

  lemma ListedIn(es: seq<Entry>, e: Entry)
    requires e in es
    ensures Listed(es, e.group)
  {
    var i: nat :| i < |es| && es[i] == e;
    assert es[i].group == e.group;
  }

  // ----- the report does not depend on the order of map iteration

  lemma BucketsUnique(a: map<string, Group>, b: map<string, Group>, runs: seq<Summary>)
    requires Bucketed(a, runs) && Bucketed(b, runs)
    ensures a == b
  {
    forall k ensures k in a <==> k in b { assert k in a <==> With(runs, k) != []; }
    forall k | k in a ensures a[k] == b[k] { assert a[k].runs == b[k].runs; }
  }

  lemma StatsUnique(a: GroupStats, b: GroupStats, runs: seq<Summary>)
    requires Aggregates(a, runs) && Aggregates(b, runs)
    ensures a == b
  {
    ExtremeUnique(Column(runs, (r: Summary) => r.throughput), a.minThroughput, b.minThroughput, a.maxThroughput, b.maxThroughput);
    ExtremeUnique(Column(runs, (r: Summary) => r.pickup.p95), a.minPickupP95, b.minPickupP95, a.maxPickupP95, b.maxPickupP95);
  }

  lemma ExtremeUnique(xs: seq<real>, lo: real, lo': real, hi: real, hi': real)
    requires IsMin(xs, lo) && IsMin(xs, lo') && IsMax(xs, hi) && IsMax(xs, hi')
    ensures lo == lo' && hi == hi'
  {
  }

  lemma {:induction false} StrictUnique(a: seq<Entry>, b: seq<Entry>)
    requires Strict(a) && Strict(b) && forall e :: e in a <==> e in b
    ensures a == b
  {
    if a == [] {
      assert forall i: nat | i < |b| :: b[i] in b;
    } else {
      FirstSame(a, b);
      TailsSame(a, b);
      StrictUnique(a[1..], b[1..]);
      assert a == [a[0]] + a[1..] && b == [b[0]] + b[1..];
    }
  }

  lemma FirstSame(a: seq<Entry>, b: seq<Entry>)
    requires Strict(a) && Strict(b) && a != [] && forall e :: e in a <==> e in b
    ensures b != [] && a[0] == b[0]
  {
    assert a[0] in b;
    var j: nat :| j < |b| && b[j] == a[0];
    assert b[0] in a;
    var i: nat :| i < |a| && a[i] == b[0];
    LessTotal(a[0].group, b[0].group);
  }

  lemma TailsSame(a: seq<Entry>, b: seq<Entry>)
    requires Strict(a) && Strict(b) && a != [] && b != [] && a[0] == b[0] && forall e :: e in a <==> e in b
    ensures Strict(a[1..]) && Strict(b[1..]) && forall e :: e in a[1..] <==> e in b[1..]
  {
    Tail(a);
    Tail(b);
    forall e ensures e in a[1..] <==> e in b[1..] {
      assert e in a[1..] <==> e in a && e != a[0];
      assert e in b[1..] <==> e in b && e != b[0];
    }
  }

  lemma Tail(a: seq<Entry>)
    requires Strict(a) && a != []
    ensures Strict(a[1..]) && forall e :: e in a[1..] <==> e in a && e != a[0]
  {
    assert a == [a[0]] + a[1..];
    assert forall i: nat | i < |a[1..]| :: a[1..][i] == a[i + 1];
    LessTotal(a[0].group, a[0].group);
    assert a[0] !in a[1..];
  }

  /** Whatever order Go visits the map in, GroupRuns returns the same list. */
  lemma GroupingDeterministic(a: seq<Entry>, b: seq<Entry>, runs: seq<Summary>)
    requires IsReport(a, runs) && IsReport(b, runs)
    ensures a == b
  {
    var m: map<string, Group> :| Bucketed(m, runs) && IsGrouping(a, m);
    var n: map<string, Group> :| Bucketed(n, runs) && IsGrouping(b, n);
    BucketsUnique(m, n, runs);
    forall e ensures e in a <==> e in b {
      if e in a { EntryShared(a, b, m, e); }
      if e in b { EntryShared(b, a, m, e); }
    }
    StrictUnique(a, b);
  }

  lemma EntryShared(a: seq<Entry>, b: seq<Entry>, m: map<string, Group>, e: Entry)
    requires IsGrouping(a, m) && IsGrouping(b, m) && e in a
    ensures e in b
  {
    var i: nat :| i < |a| && a[i] == e;
    assert e.group in m.Values;
    var k :| k in m && m[k] == e.group;
    assert Listed(b, m[k]);
    var j: nat :| j < |b| && b[j].group == e.group;
    StatsUnique(a[i].stats, b[j].stats, e.group.runs);
  }
}

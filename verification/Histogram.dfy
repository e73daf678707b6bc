/** The latency histogram: recording (internal/metrics/metrics.go), the labelled snapshot, and its
    export as cumulative buckets (internal/metrics/prometheus.go). Boundaries and exported limits are
    in milliseconds; the limit -1 stands for +Inf, as in the source. */
module Histogram {

  /** Duration.Milliseconds truncates toward zero. */
  function Milliseconds(nanos: int): int {
    if nanos >= 0 then nanos / 1_000_000 else -((-nanos) / 1_000_000)
  }

  /** A latency counts as at most b milliseconds exactly when it is below the next whole one. */
  lemma {:induction false} MillisecondsAtMost(nanos: int, b: nat)
    ensures Milliseconds(nanos) <= b <==> nanos < (b + 1) * 1_000_000
  {
  }

  /** The first bucket whose boundary is not exceeded; |bounds| is the overflow bucket. */
  function BucketOf(bounds: seq<nat>, ms: int): (i: nat)
    ensures i <= |bounds|
    ensures i < |bounds| ==> ms <= bounds[i]
    ensures forall j :: 0 <= j < i ==> bounds[j] < ms
  {
    if bounds == [] || ms <= bounds[0] then 0 else 1 + BucketOf(bounds[1..], ms)
  }

  /** How many recorded values fall in bucket i. */
  function Hits(bounds: seq<nat>, recorded: seq<int>, i: nat): nat {
    if recorded == [] then 0
    else
      Hits(bounds, recorded[..|recorded| - 1], i) +
      (if BucketOf(bounds, recorded[|recorded| - 1]) == i then 1 else 0)
  }

  /** How many recorded values are at most b: what a cumulative bucket is meant to say. */
  function AtMost(recorded: seq<int>, b: int): nat {
    if recorded == [] then 0
    else AtMost(recorded[..|recorded| - 1], b) + (if recorded[|recorded| - 1] <= b then 1 else 0)
  }

  /** The loop of Snapshot that fills the labelled map. */
  method StoreAll(labels: seq<string>, counts: seq<nat>) returns (h: map<string, nat>)
    requires |labels| == |counts|
    ensures h == Stored(labels, counts, |labels|)
  {
    h := map[];
    for i := 0 to |labels|
      invariant h == Stored(labels, counts, i)
    {
      h := h[labels[i] := counts[i]];
    }
  }

  class Collector {
    const bounds: seq<nat>
    const buckets: array<nat>
    ghost var recorded: seq<int>

    ghost predicate Valid()
      reads this, buckets
    {
      && bounds != [] && buckets.Length == |bounds| + 1
      && (forall i :: 0 <= i < buckets.Length ==> buckets[i] == Hits(bounds, recorded, i))
    }

    constructor (boundaries: seq<nat>)
      requires boundaries != []
      ensures Valid() && bounds == boundaries && recorded == [] && fresh(buckets)
    {
      bounds := boundaries;
      buckets := new nat[|boundaries| + 1](_ => 0);
      recorded := [];
    }

    method RecordLatency(nanos: int)
      requires Valid()
      modifies this, buckets
      ensures Valid() && recorded == old(recorded) + [Milliseconds(nanos)]
    {
      var ms := Milliseconds(nanos);
      var bucket := |bounds|;
      for i := 0 to |bounds|
        invariant bucket == |bounds| && (forall j :: 0 <= j < i ==> bounds[j] < ms)
        invariant Valid() && recorded == old(recorded)
      {
        if ms <= bounds[i] {
          bucket := i;
          break;
        }
      }
      assert bucket == BucketOf(bounds, ms);
      buckets[bucket] := buckets[bucket] + 1;
      recorded := recorded + [ms];
      assert recorded[..|recorded| - 1] == old(recorded);
    }

    /** The histogram part of Snapshot. */
    method Snapshot() returns (h: map<string, nat>)
      requires Valid()
      ensures h == Labelled(bounds, HitCounts(bounds, recorded))
    {
      assert buckets[..] == HitCounts(bounds, recorded);
      h := StoreAll(Labels(bounds), buckets[..]);
    }

    method Reset()
      requires Valid()
      modifies this`recorded, buckets
      ensures Valid() && recorded == []
    {
      for i := 0 to buckets.Length
        invariant forall j :: 0 <= j < i ==> buckets[j] == 0
      {
        buckets[i] := 0;
      }
      recorded := [];
    }
  }

  // ---------------------------------------------------------------- labels

  /** Go's conversion of an integer to a one-rune string. */
  function Rune(n: int): char {
    if 0 <= n < 0xD800 || 0xE000 <= n < 0x11_0000 then n as char else '\U{FFFD}'
  }

  function FormatMs(ms: nat): string {
    if ms >= 1000 then [Rune('0' as int + ms / 1000)] + "s"
    else [Rune('0' as int + ms / 100), Rune('0' as int + ms / 10 % 10), Rune('0' as int + ms % 10)] + "ms"
  }

  function LeLabel(bound: nat): string {
    "<=" + FormatMs(bound)
  }

  function GtLabel(bound: nat): string {
    ">" + FormatMs(bound)
  }

  /** The labels of all buckets, the overflow bucket last. */
  function Labels(bounds: seq<nat>): (l: seq<string>)
    requires bounds != []
    ensures |l| == |bounds| + 1
  {
    seq(|bounds| + 1, i requires 0 <= i <= |bounds| =>
      if i < |bounds| then LeLabel(bounds[i]) else GtLabel(bounds[|bounds| - 1]))
  }

  /** The map that results from storing the first n counts under their labels, in order. */
  function Stored(labels: seq<string>, counts: seq<nat>, n: nat): map<string, nat>
    requires n <= |labels| == |counts|
  {
    if n == 0 then map[] else Stored(labels, counts, n - 1)[labels[n - 1] := counts[n - 1]]
  }

  function Labelled(bounds: seq<nat>, counts: seq<nat>): map<string, nat>
    requires bounds != [] && |counts| == |bounds| + 1
  {
    Stored(Labels(bounds), counts, |counts|)
  }

  predicate HasSuffix(s: string, suffix: string) {
    |suffix| <= |s| && s[|s| - |suffix|..] == suffix
  }

  function TrimSuffix(s: string, suffix: string): string {
    if HasSuffix(s, suffix) then s[..|s| - |suffix|] else s
  }

  /** The number at the front of a text, 0 when there is none. */
  function Scan(s: string, value: nat): nat {
    if s == "" || !('0' <= s[0] <= '9') then value else Scan(s[1..], value * 10 + (s[0] as int - '0' as int))
  }

  /** The limit that the exporter reads out of the text after "<=". */
  function LimitOf(body: string): nat {
    var number := Scan(TrimSuffix(TrimSuffix(body, "ms"), "s"), 0);
    if HasSuffix(body, "s") && !HasSuffix(body, "ms") then number * 1000 else number
  }

  /** Boundaries whose label says what they are: below one second, or 1 to 9 whole seconds. */
  predicate Representable(b: int) {
    0 <= b < 1000 || (1000 <= b < 10_000 && b % 1000 == 0)
  }

  lemma {:induction false} SecondsLimit(c: char)
    ensures LimitOf([c] + "s") == if '0' <= c <= '9' then 1000 * (c as int - '0' as int) else 0
  {
    var body := [c] + "s";
    assert body[1..] == "s" && body[..1] == [c];
    assert HasSuffix(body, "s");
    if c == 'm' {
      assert body == "ms" && body[0..] == "ms";
      assert TrimSuffix(body, "ms") == "" == TrimSuffix("", "s");
    } else {
      assert body[0..] == body && body[0] == c && "ms"[0] == 'm';
      assert !HasSuffix(body, "ms") && TrimSuffix(body, "ms") == body && TrimSuffix(body, "s") == [c];
      assert [c][1..] == "" && [c][0] == c;
      assert Scan([c], 0) == if '0' <= c <= '9' then c as int - '0' as int else 0;
    }
  }

  lemma {:induction false} MillisLimit(x: char, y: char, z: char)
    requires '0' <= x <= '9' && '0' <= y <= '9' && '0' <= z <= '9'
    ensures LimitOf([x, y, z] + "ms")
         == 100 * (x as int - '0' as int) + 10 * (y as int - '0' as int) + (z as int - '0' as int)
  {
    var body, digits := [x, y, z] + "ms", [x, y, z];
    assert body[3..] == "ms" && body[..3] == digits;
    assert HasSuffix(body, "ms") && TrimSuffix(body, "ms") == digits;
    assert digits[2..] == [z] && [z][0] == z;
    assert "s"[0] == 's';
    assert !HasSuffix(digits, "s");
    assert digits[1..] == [y, z] && [y, z][1..] == [z] && [z][1..] == "";
    assert Scan([z], (x as int - '0' as int) * 10 + (y as int - '0' as int)) ==
           ((x as int - '0' as int) * 10 + (y as int - '0' as int)) * 10 + (z as int - '0' as int);
    assert Scan([y, z], x as int - '0' as int) == Scan([z], (x as int - '0' as int) * 10 + (y as int - '0' as int));
    assert Scan(digits, 0) == Scan([y, z], x as int - '0' as int);
  }

  lemma {:induction false} ThreeDigits(b: nat)
    requires b < 1000
    ensures b / 100 <= 9 && b / 10 % 10 <= 9 && 100 * (b / 100) + 10 * (b / 10 % 10) + b % 10 == b
  {
    assert b / 100 == b / 10 / 10;
  }

  lemma {:induction false} SecondsLabel(b: nat)
    requires b >= 1000
    ensures LimitOf(FormatMs(b)) == b <==> Representable(b)
  {
    var c := Rune('0' as int + b / 1000);
    assert '0' <= c <= '9' <==> b / 1000 <= 9;
    assert FormatMs(b) == [c] + "s";
    SecondsLimit(c);
  }

  lemma {:induction false} MillisLabel(b: nat)
    requires b < 1000
    ensures LimitOf(FormatMs(b)) == b
  {
    ThreeDigits(b);
    var x, y, z := Rune('0' as int + b / 100), Rune('0' as int + b / 10 % 10), Rune('0' as int + b % 10);
    assert FormatMs(b) == [x, y, z] + "ms";
    MillisLimit(x, y, z);
  }

  /** The label of a boundary reads back as that boundary exactly when it is representable. */
  lemma {:induction false} LabelReadsBackIff(b: nat)
    ensures LimitOf(FormatMs(b)) == b <==> Representable(b)
  {
    if b >= 1000 {
      SecondsLabel(b);
    } else {
      MillisLabel(b);
    }
  }

  /** Outside them two boundaries can share a label, and the snapshot then loses a bucket. */
  lemma LabelsCanCollide()
    ensures LeLabel(1000) == LeLabel(1500) == "<=1s"
    ensures LeLabel(25) == "<=025ms" && GtLabel(5000) == ">5s"
  {
  }

  // ---------------------------------------------------------------- export

  datatype Entry = Entry(text: string, count: nat)
  datatype Bucket = Bucket(le: int, count: nat)
  datatype Row = Row(le: int, cumulative: nat)

  /** A label that starts with neither "<=" nor ">" yields no bucket. */
  function Parsed(e: Entry): seq<Bucket> {
    if "<=" <= e.text then [Bucket(LimitOf(e.text[2..]), e.count)]
    else if ">" <= e.text then [Bucket(-1, e.count)]
    else []
  }

  function Flatten(parts: seq<seq<Bucket>>): seq<Bucket> {
    if parts == [] then [] else Flatten(parts[..|parts| - 1]) + parts[|parts| - 1]
  }

  function EachParsed(entries: seq<Entry>): (parts: seq<seq<Bucket>>)
    ensures |parts| == |entries|
  {
    seq(|entries|, i requires 0 <= i < |entries| => Parsed(entries[i]))
  }

  function AllParsed(entries: seq<Entry>): seq<Bucket> {
    Flatten(EachParsed(entries))
  }

  function TotalOf(entries: seq<Entry>): nat {
    if entries == [] then 0 else TotalOf(entries[..|entries| - 1]) + entries[|entries| - 1].count
  }

  /** The comparison given to the sort: +Inf last. */
  predicate Less(a: Bucket, b: Bucket) {
    a.le >= 0 && (b.le < 0 || a.le < b.le)
  }

  ghost predicate Ordered(s: seq<Bucket>) {
    forall i, j :: 0 <= i < j < |s| ==> !Less(s[j], s[i])
  }

  /** Running totals. */
  function Cumulate(s: seq<Bucket>): (rows: seq<Row>)
    ensures |rows| == |s|
  {
    if s == [] then []
    else
      var most := Cumulate(s[..|s| - 1]);
      most + [Row(s[|s| - 1].le, (if most == [] then 0 else most[|most| - 1].cumulative) + s[|s| - 1].count)]
  }

  /** The place of x in an ordered sequence, after its equals. */
  method PlaceIn(sorted: seq<Bucket>, x: Bucket) returns (i: nat)
    ensures i <= |sorted| && (i > 0 ==> !Less(x, sorted[i - 1]))
    ensures forall j :: i <= j < |sorted| ==> Less(x, sorted[j])
  {
    i := |sorted|;
    while i > 0 && Less(x, sorted[i - 1])
      invariant i <= |sorted|
      invariant forall j :: i <= j < |sorted| ==> Less(x, sorted[j])
    {
      i := i - 1;
    }
  }

  lemma {:induction false} InsertedMembers(sorted: seq<Bucket>, i: nat, x: Bucket)
    requires i <= |sorted|
    ensures multiset(sorted[..i] + [x] + sorted[i..]) == multiset(sorted) + multiset{x}
  {
    assert sorted == sorted[..i] + sorted[i..];
  }

  /** Stands for sort.Slice: an ordered permutation, here by insertion. */
  method SortBuckets(s: seq<Bucket>) returns (sorted: seq<Bucket>)
    ensures Ordered(sorted) && multiset(sorted) == multiset(s)
  {
    sorted := [];
    for n := 0 to |s|
      invariant Ordered(sorted) && multiset(sorted) == multiset(s[..n])
    {
      var i := PlaceIn(sorted, s[n]);
      InsertKeepsOrder(sorted, i, s[n]);
      InsertedMembers(sorted, i, s[n]);
      assert s[..n + 1] == s[..n] + [s[n]];
      sorted := sorted[..i] + [s[n]] + sorted[i..];
    }
    assert s[..|s|] == s;
  }

  lemma {:induction false} InsertKeepsOrder(s: seq<Bucket>, i: nat, x: Bucket)
    requires Ordered(s) && i <= |s|
    requires forall j :: i <= j < |s| ==> Less(x, s[j])
    requires i > 0 ==> !Less(x, s[i - 1])
    ensures Ordered(s[..i] + [x] + s[i..])
  {
    var r := s[..i] + [x] + s[i..];
    forall p, q | 0 <= p < q < |r| ensures !Less(r[q], r[p]) {
      if p < i && q == i {
        assert p == i - 1 || !Less(s[i - 1], s[p]);
      }
    }
  }

  method ParseBuckets(entries: seq<Entry>) returns (buckets: seq<Bucket>, total: nat)
    ensures buckets == AllParsed(entries) && total == TotalOf(entries)
  {
    buckets, total := [], 0;
    for i := 0 to |entries|
      invariant buckets == Flatten(EachParsed(entries)[..i]) && total == TotalOf(entries[..i])
    {
      assert entries[..i + 1][..i] == entries[..i];
      assert EachParsed(entries)[..i + 1][..i] == EachParsed(entries)[..i];
      total := total + entries[i].count;
      if "<=" <= entries[i].text {
        buckets := buckets + [Bucket(LimitOf(entries[i].text[2..]), entries[i].count)];
      } else if ">" <= entries[i].text {
        buckets := buckets + [Bucket(-1, entries[i].count)];
      }
    }
    assert entries[..|entries|] == entries;
    assert EachParsed(entries)[..|entries|] == EachParsed(entries);
  }

  method Accumulate(buckets: seq<Bucket>) returns (rows: seq<Row>)
    ensures rows == Cumulate(buckets)
  {
    var cumulative := 0;
    rows := [];
    for i := 0 to |buckets|
      invariant rows == Cumulate(buckets[..i])
      invariant cumulative == if i == 0 then 0 else rows[i - 1].cumulative
    {
      assert buckets[..i + 1][..i] == buckets[..i];
      cumulative := cumulative + buckets[i].count;
      rows := rows + [Row(buckets[i].le, cumulative)];
    }
    assert buckets[..|buckets|] == buckets;
  }

  /** writeHistogram: entries is the histogram map in whatever order it was walked. */
  method WriteHistogram(entries: seq<Entry>) returns (rows: seq<Row>, total: nat, ghost sorted: seq<Bucket>)
    ensures Ordered(sorted) && multiset(sorted) == multiset(AllParsed(entries))
    ensures rows == Cumulate(sorted) && total == TotalOf(entries)
  {
    var buckets;
    buckets, total := ParseBuckets(entries);
    var inOrder := SortBuckets(buckets);
    sorted := inOrder;
    rows := Accumulate(inOrder);
  }

  // ---------------------------------------------------------------- agreement

  ghost predicate Increasing(bounds: seq<nat>) {
    forall i, j :: 0 <= i < j < |bounds| ==> bounds[i] < bounds[j]
  }

  ghost predicate AllRepresentable(bounds: seq<nat>) {
    forall i :: 0 <= i < |bounds| ==> Representable(bounds[i])
  }

  ghost predicate Proper(bounds: seq<nat>) {
    bounds != [] && AllRepresentable(bounds) && Increasing(bounds)
  }

  /** The buckets a histogram ought to export, in order. */
  function Wanted(bounds: seq<nat>, counts: seq<nat>): seq<Bucket>
    requires |counts| == |bounds| + 1
  {
    seq(|counts|, i requires 0 <= i < |counts| => Bucket(if i < |bounds| then bounds[i] else -1, counts[i]))
  }

  /** entries lists the map h, each label once. */
  ghost predicate Lists(entries: seq<Entry>, h: map<string, nat>) {
    && (forall i :: 0 <= i < |entries| ==> entries[i].text in h && h[entries[i].text] == entries[i].count)
    && (forall i, j :: 0 <= i < j < |entries| ==> entries[i].text != entries[j].text)
    && (forall l :: l in h ==> exists i :: 0 <= i < |entries| && entries[i].text == l)
  }

  lemma {:induction false} ParsedLe(b: nat, n: nat)
    ensures Parsed(Entry(LeLabel(b), n)) == [Bucket(LimitOf(FormatMs(b)), n)]
    ensures Representable(b) ==> Parsed(Entry(LeLabel(b), n)) == [Bucket(b, n)]
  {
    LabelReadsBackIff(b);
    assert LeLabel(b)[2..] == FormatMs(b) && LeLabel(b)[..2] == "<=";
  }

  lemma {:induction false} ParsedGt(b: nat, n: nat)
    ensures Parsed(Entry(GtLabel(b), n)) == [Bucket(-1, n)]
    ensures forall c: nat :: LeLabel(c) != GtLabel(b)
  {
    assert GtLabel(b)[0] == '>' && "<="[0] == '<';
    assert forall c: nat :: LeLabel(c)[0] == '<';
    assert GtLabel(b)[..1] == ">";
  }

  lemma {:induction false} LabelsDiffer(a: nat, b: nat)
    requires Representable(a) && Representable(b) && a != b
    ensures LeLabel(a) != LeLabel(b)
  {
    ParsedLe(a, 0);
    ParsedLe(b, 0);
  }

  ghost predicate AllDifferent(labels: seq<string>) {
    forall i, j :: 0 <= i < j < |labels| ==> labels[i] != labels[j]
  }

  lemma {:induction false} LabelsAreDifferent(bounds: seq<nat>)
    requires Proper(bounds)
    ensures AllDifferent(Labels(bounds))
  {
    ParsedGt(bounds[|bounds| - 1], 0);
    forall i, j | 0 <= i < j <= |bounds| ensures Labels(bounds)[i] != Labels(bounds)[j] {
      if j < |bounds| {
        LabelsDiffer(bounds[i], bounds[j]);
      }
    }
  }

  /** Under different labels nothing is overwritten: the map has one entry per count, and no others. */
  lemma {:induction false} StoredMeans(labels: seq<string>, counts: seq<nat>, n: nat)
    requires n <= |labels| == |counts| && AllDifferent(labels)
    ensures forall i :: 0 <= i < n ==>
              labels[i] in Stored(labels, counts, n) && Stored(labels, counts, n)[labels[i]] == counts[i]
    ensures forall l :: l in Stored(labels, counts, n) ==> exists i :: 0 <= i < n && l == labels[i]
  {
    if n == 0 {
    } else {
      StoredMeans(labels, counts, n - 1);
    }
  }

  lemma {:induction false} FlattenSingletons(parts: seq<seq<Bucket>>)
    requires forall k :: 0 <= k < |parts| ==> |parts[k]| == 1
    ensures |Flatten(parts)| == |parts|
    ensures forall k :: 0 <= k < |parts| ==> Flatten(parts)[k] == parts[k][0]
  {
    if parts == [] {
    } else {
      FlattenSingletons(parts[..|parts| - 1]);
    }
  }

  /** No two buckets with the same limit. */
  ghost predicate Distinct(s: seq<Bucket>) {
    forall i, j :: 0 <= i < j < |s| ==> s[i].le != s[j].le
  }

  lemma {:induction false} LabelParsesToWanted(bounds: seq<nat>, counts: seq<nat>, i: nat)
    requires Proper(bounds) && |counts| == |bounds| + 1 && i < |counts|
    ensures Parsed(Entry(Labels(bounds)[i], counts[i])) == [Wanted(bounds, counts)[i]]
  {
    if i < |bounds| {
      ParsedLe(bounds[i], counts[i]);
    } else {
      ParsedGt(bounds[|bounds| - 1], counts[i]);
    }
  }

  lemma WantedIsDistinct(bounds: seq<nat>, counts: seq<nat>)
    requires Proper(bounds) && |counts| == |bounds| + 1
    ensures Distinct(Wanted(bounds, counts))
    ensures forall i, j :: 0 <= i < j < |counts| ==> Less(Wanted(bounds, counts)[i], Wanted(bounds, counts)[j])
  {
  }

  /** The walk visits bucket places[k] at step k: all of them, none twice. */
  ghost predicate Visits(entries: seq<Entry>, labels: seq<string>, counts: seq<nat>, places: seq<nat>)
    requires |labels| == |counts|
  {
    && |places| == |entries|
    && (forall k :: 0 <= k < |places| ==>
          places[k] < |labels| && entries[k] == Entry(labels[places[k]], counts[places[k]]))
    && (forall k, m :: 0 <= k < m < |places| ==> places[k] != places[m])
    && (forall i :: 0 <= i < |labels| ==> i in places)
  }

  lemma {:induction false} PlaceOf(e: Entry, labels: seq<string>, counts: seq<nat>) returns (i: nat)
    requires |labels| == |counts| && AllDifferent(labels)
    requires e.text in Stored(labels, counts, |labels|) && Stored(labels, counts, |labels|)[e.text] == e.count
    ensures i < |labels| && e == Entry(labels[i], counts[i])
  {
    StoredMeans(labels, counts, |labels|);
    i :| 0 <= i < |labels| && e.text == labels[i];
  }

  lemma {:induction false} PlacesOf(entries: seq<Entry>, labels: seq<string>, counts: seq<nat>)
    returns (places: seq<nat>)
    requires |labels| == |counts| && AllDifferent(labels)
    requires forall i :: 0 <= i < |entries| ==>
               && entries[i].text in Stored(labels, counts, |labels|)
               && Stored(labels, counts, |labels|)[entries[i].text] == entries[i].count
    ensures |places| == |entries|
    ensures forall k :: 0 <= k < |places| ==>
              places[k] < |labels| && entries[k] == Entry(labels[places[k]], counts[places[k]])
  {
    if entries == [] {
      places := [];
    } else {
      var m := |entries| - 1;
      var most := PlacesOf(entries[..m], labels, counts);
      var last := PlaceOf(entries[m], labels, counts);
      places := most + [last];
    }
  }

  lemma {:induction false} WalkVisits(entries: seq<Entry>, labels: seq<string>, counts: seq<nat>)
    returns (places: seq<nat>)
    requires |labels| == |counts| && AllDifferent(labels) && Lists(entries, Stored(labels, counts, |labels|))
    ensures Visits(entries, labels, counts, places)
  {
    places := PlacesOf(entries, labels, counts);
    StoredMeans(labels, counts, |labels|);
    forall i | 0 <= i < |labels| ensures i in places {
      assert labels[i] in Stored(labels, counts, |labels|);
      var k :| 0 <= k < |entries| && entries[k].text == labels[i];
      assert places[k] == i;
    }
  }

  /** Whatever the order of the walk, the parsed buckets are the wanted ones, each once. */
  lemma {:induction false} WalkYieldsWanted(bounds: seq<nat>, counts: seq<nat>, entries: seq<Entry>)
    returns (places: seq<nat>)
    requires Proper(bounds) && |counts| == |bounds| + 1 && Lists(entries, Labelled(bounds, counts))
    ensures Visits(entries, Labels(bounds), counts, places)
    ensures |AllParsed(entries)| == |entries|
    ensures forall k :: 0 <= k < |entries| ==> AllParsed(entries)[k] == Wanted(bounds, counts)[places[k]]
  {
    LabelsAreDifferent(bounds);
    places := WalkVisits(entries, Labels(bounds), counts);
    forall k | 0 <= k < |entries| ensures EachParsed(entries)[k] == [Wanted(bounds, counts)[places[k]]] {
      LabelParsesToWanted(bounds, counts, places[k]);
    }
    FlattenSingletons(EachParsed(entries));
  }

  lemma {:induction false} RearrangedMembers(parsed: seq<Bucket>, want: seq<Bucket>, places: seq<nat>)
    requires |parsed| == |places|
    requires forall k :: 0 <= k < |places| ==> places[k] < |want| && parsed[k] == want[places[k]]
    requires forall k, m :: 0 <= k < m < |places| ==> places[k] != places[m]
    requires forall i :: 0 <= i < |want| ==> i in places
    requires Distinct(want)
    ensures Distinct(parsed)
    ensures forall x :: x in parsed <==> x in want
  {
    forall x | x in want ensures x in parsed {
      var i :| 0 <= i < |want| && want[i] == x;
      assert i in places;
      var k :| 0 <= k < |places| && places[k] == i;
      assert parsed[k] == x;
    }
  }

  // ---------------------------------------------------------------- sorting distinct buckets

  lemma {:induction false} DistinctCountsOne(s: seq<Bucket>)
    requires Distinct(s)
    ensures forall x :: multiset(s)[x] <= 1
  {
    if s == [] {
    } else {
      var most, last := s[..|s| - 1], s[|s| - 1];
      DistinctCountsOne(most);
      assert s == most + [last];
      assert last !in most;
    }
  }

  lemma {:induction false} RepeatedCountsTwo(s: seq<Bucket>, i: nat, j: nat)
    requires i < j < |s| && s[i] == s[j]
    ensures multiset(s)[s[i]] >= 2
  {
    assert s == s[..j] + s[j..];
    assert s[..j][i] == s[i] && s[j..][0] == s[i];
    assert s[i] in multiset(s[..j]) && s[i] in multiset(s[j..]);
    assert multiset(s) == multiset(s[..j]) + multiset(s[j..]);
  }

  /** An ordered permutation of distinct buckets is strictly increasing. */
  lemma {:induction false} SortIsStrict(s: seq<Bucket>, sorted: seq<Bucket>)
    requires Distinct(s) && Ordered(sorted) && multiset(sorted) == multiset(s)
    requires forall k :: 0 <= k < |s| ==> s[k].le >= -1
    ensures forall x :: x in sorted <==> x in s
    ensures forall i, j :: 0 <= i < j < |sorted| ==> Less(sorted[i], sorted[j])
  {
    assert forall x :: x in sorted <==> x in multiset(sorted);
    assert forall x :: x in s <==> x in multiset(s);
    DistinctCountsOne(s);
    forall i, j | 0 <= i < j < |sorted| ensures Less(sorted[i], sorted[j]) {
      if sorted[i] == sorted[j] {
        RepeatedCountsTwo(sorted, i, j);
      }
      assert sorted[i] in s && sorted[j] in s;
    }
  }

  lemma {:induction false} EmptyOrMember(s: seq<Bucket>)
    ensures s == [] || exists x :: x in s
  {
    if s != [] {
      assert s[0] in s;
    }
  }

  /** Two strictly increasing sequences with the same members are the same sequence. */
  lemma {:induction false} StrictIsUnique(a: seq<Bucket>, b: seq<Bucket>)
    requires forall i, j :: 0 <= i < j < |a| ==> Less(a[i], a[j])
    requires forall i, j :: 0 <= i < j < |b| ==> Less(b[i], b[j])
    requires forall x :: x in a <==> x in b
    ensures a == b
  {
    EmptyOrMember(b);
    if a == [] {
    } else {
      assert a[0] in b;
      var m, n := |a| - 1, |b| - 1;
      assert a[m] in b && b[n] in a;
      assert a[m] == b[n];
      forall x ensures x in a[..m] <==> x in b[..n] {
        assert x in a <==> x in a[..m] || x == a[m] by { assert a == a[..m] + [a[m]]; }
        assert x in b <==> x in b[..n] || x == b[n] by { assert b == b[..n] + [b[n]]; }
        assert a[m] !in a[..m] && b[n] !in b[..n];
      }
      StrictIsUnique(a[..m], b[..n]);
      assert a == a[..m] + [a[m]] && b == b[..n] + [b[n]];
    }
  }

  // ---------------------------------------------------------------- counting

  function SumHits(bounds: seq<nat>, recorded: seq<int>, n: nat): nat {
    if n == 0 then 0 else SumHits(bounds, recorded, n - 1) + Hits(bounds, recorded, n - 1)
  }

  lemma {:induction false} OneMoreRecord(bounds: seq<nat>, recorded: seq<int>, n: nat)
    requires recorded != []
    ensures SumHits(bounds, recorded, n)
         == SumHits(bounds, recorded[..|recorded| - 1], n)
            + (if BucketOf(bounds, recorded[|recorded| - 1]) < n then 1 else 0)
  {
    if n == 0 {
    } else {
      OneMoreRecord(bounds, recorded, n - 1);
    }
  }

  lemma {:induction false} NoRecords(bounds: seq<nat>, n: nat)
    ensures SumHits(bounds, [], n) == 0
  {
    if n == 0 {
    } else {
      NoRecords(bounds, n - 1);
    }
  }

  /** The buckets up to i hold exactly the values at most bounds[i]; all of them hold everything. */
  lemma {:induction false} SumHitsIsAtMost(bounds: seq<nat>, recorded: seq<int>, i: nat)
    requires i <= |bounds| && forall p, q :: 0 <= p < q < |bounds| ==> bounds[p] < bounds[q]
    ensures SumHits(bounds, recorded, i + 1) == if i < |bounds| then AtMost(recorded, bounds[i]) else |recorded|
  {
    if recorded == [] {
      NoRecords(bounds, i + 1);
    } else {
      SumHitsIsAtMost(bounds, recorded[..|recorded| - 1], i);
      OneMoreRecord(bounds, recorded, i + 1);
    }
  }

  function HitCounts(bounds: seq<nat>, recorded: seq<int>): (counts: seq<nat>)
    ensures |counts| == |bounds| + 1
  {
    seq(|bounds| + 1, i requires 0 <= i => Hits(bounds, recorded, i))
  }

  function CountSum(s: seq<Bucket>): nat {
    if s == [] then 0 else CountSum(s[..|s| - 1]) + s[|s| - 1].count
  }

  lemma {:induction false} CountSumAppend(s: seq<Bucket>, x: Bucket)
    ensures CountSum(s + [x]) == CountSum(s) + x.count
  {
    assert (s + [x])[..|s|] == s;
  }

  lemma {:induction false} CumulateRow(s: seq<Bucket>, i: nat)
    requires i < |s|
    ensures Cumulate(s)[i] == Row(s[i].le, CountSum(s[..i + 1]))
  {
    var m := |s| - 1;
    if i < m {
      CumulateRow(s[..m], i);
      assert s[..m][..i + 1] == s[..i + 1];
    } else {
      if m > 0 {
        CumulateRow(s[..m], m - 1);
        assert s[..m][..m] == s[..m];
      }
      assert s[..i + 1] == s;
    }
  }

  lemma {:induction false} WantedSum(bounds: seq<nat>, recorded: seq<int>, n: nat)
    requires n <= |bounds| + 1
    ensures CountSum(Wanted(bounds, HitCounts(bounds, recorded))[..n]) == SumHits(bounds, recorded, n)
  {
    if n == 0 {
    } else {
      var want := Wanted(bounds, HitCounts(bounds, recorded));
      WantedSum(bounds, recorded, n - 1);
      assert want[..n] == want[..n - 1] + [want[n - 1]];
      CountSumAppend(want[..n - 1], want[n - 1]);
    }
  }

  /** The sequence without its j-th element. */
  function Without(b: seq<Bucket>, j: nat): (r: seq<Bucket>)
    requires j < |b|
    ensures |r| == |b| - 1
  {
    var m := |b| - 1;
    if j == m then b[..m] else Without(b[..m], j) + [b[m]]
  }

  lemma {:induction false} WithoutTakesOne(b: seq<Bucket>, j: nat)
    requires j < |b|
    ensures CountSum(b) == CountSum(Without(b, j)) + b[j].count
    ensures multiset(Without(b, j)) == multiset(b) - multiset{b[j]}
  {
    var m := |b| - 1;
    assert b == b[..m] + [b[m]];
    if j < m {
      WithoutTakesOne(b[..m], j);
      CountSumAppend(Without(b[..m], j), b[m]);
      assert b[j] in multiset(b[..m]);
    }
  }

  lemma {:induction false} CountSumPermutes(a: seq<Bucket>, b: seq<Bucket>)
    requires multiset(a) == multiset(b)
    ensures CountSum(a) == CountSum(b)
    decreases |a|
  {
    if a == [] {
      assert |b| == |multiset(b)|;
    } else {
      assert a[0] in multiset(b);
      var j :| 0 <= j < |b| && b[j] == a[0];
      WithoutTakesOne(a, 0);
      WithoutTakesOne(b, j);
      CountSumPermutes(Without(a, 0), Without(b, j));
    }
  }

  lemma {:induction false} TotalIsCountSum(entries: seq<Entry>, buckets: seq<Bucket>)
    requires |entries| == |buckets| && forall k :: 0 <= k < |entries| ==> buckets[k].count == entries[k].count
    ensures TotalOf(entries) == CountSum(buckets)
  {
    if entries == [] {
    } else {
      TotalIsCountSum(entries[..|entries| - 1], buckets[..|buckets| - 1]);
    }
  }

  /** Sorting undoes any rearrangement of an increasing sequence. */
  lemma {:induction false} SortRestores(parsed: seq<Bucket>, want: seq<Bucket>, places: seq<nat>, sorted: seq<Bucket>)
    requires |parsed| == |places|
    requires forall k :: 0 <= k < |places| ==> places[k] < |want| && parsed[k] == want[places[k]]
    requires forall k, m :: 0 <= k < m < |places| ==> places[k] != places[m]
    requires forall i :: 0 <= i < |want| ==> i in places
    requires Distinct(want) && forall i :: 0 <= i < |want| ==> want[i].le >= -1
    requires forall i, j :: 0 <= i < j < |want| ==> Less(want[i], want[j])
    requires Ordered(sorted) && multiset(sorted) == multiset(parsed)
    ensures sorted == want
  {
    RearrangedMembers(parsed, want, places);
    SortIsStrict(parsed, sorted);
    StrictIsUnique(sorted, want);
  }

  /** Every sort of every walk gives the same buckets in the same order. */
  lemma {:induction false} SortedWalkIsWanted(bounds: seq<nat>, counts: seq<nat>, entries: seq<Entry>,
                                              sorted: seq<Bucket>)
    requires Proper(bounds) && |counts| == |bounds| + 1 && Lists(entries, Labelled(bounds, counts))
    requires Ordered(sorted) && multiset(sorted) == multiset(AllParsed(entries))
    ensures sorted == Wanted(bounds, counts)
  {
    var want, parsed := Wanted(bounds, counts), AllParsed(entries);
    var places := WalkYieldsWanted(bounds, counts, entries);
    WantedIsDistinct(bounds, counts);
    SortRestores(parsed, want, places, sorted);
  }

  lemma {:induction false} WalkTotal(bounds: seq<nat>, counts: seq<nat>, entries: seq<Entry>, sorted: seq<Bucket>)
    requires Proper(bounds) && |counts| == |bounds| + 1 && Lists(entries, Labelled(bounds, counts))
    requires multiset(sorted) == multiset(AllParsed(entries))
    ensures TotalOf(entries) == CountSum(sorted)
  {
    var places := WalkYieldsWanted(bounds, counts, entries);
    TotalIsCountSum(entries, AllParsed(entries));
    CountSumPermutes(sorted, AllParsed(entries));
  }

  lemma {:induction false} WantedRow(bounds: seq<nat>, recorded: seq<int>, i: nat)
    requires Proper(bounds) && i <= |bounds|
    ensures Cumulate(Wanted(bounds, HitCounts(bounds, recorded)))[i]
         == if i < |bounds| then Row(bounds[i], AtMost(recorded, bounds[i])) else Row(-1, |recorded|)
  {
    CumulateRow(Wanted(bounds, HitCounts(bounds, recorded)), i);
    WantedSum(bounds, recorded, i + 1);
    SumHitsIsAtMost(bounds, recorded, i);
  }

  lemma {:induction false} WantedRows(bounds: seq<nat>, recorded: seq<int>, want: seq<Bucket>, rows: seq<Row>)
    requires Proper(bounds) && want == Wanted(bounds, HitCounts(bounds, recorded)) && rows == Cumulate(want)
    ensures |rows| == |bounds| + 1
    ensures forall i :: 0 <= i < |bounds| ==> rows[i] == Row(bounds[i], AtMost(recorded, bounds[i]))
    ensures rows[|bounds|] == Row(-1, |recorded|)
  {
    forall i | 0 <= i < |bounds| ensures rows[i] == Row(bounds[i], AtMost(recorded, bounds[i])) {
      WantedRow(bounds, recorded, i);
    }
    WantedRow(bounds, recorded, |bounds|);
  }

  lemma {:induction false} WantedTotal(bounds: seq<nat>, recorded: seq<int>)
    requires Proper(bounds)
    ensures CountSum(Wanted(bounds, HitCounts(bounds, recorded))) == |recorded|
  {
    var want := Wanted(bounds, HitCounts(bounds, recorded));
    WantedSum(bounds, recorded, |bounds| + 1);
    SumHitsIsAtMost(bounds, recorded, |bounds|);
    assert want[..|bounds| + 1] == want;
  }

  /** What an export ought to say of the recordings: row i says how many values are at most bounds[i],
      and the +Inf row and the total say how many values there are. */
  ghost predicate Agrees(bounds: seq<nat>, recorded: seq<int>, rows: seq<Row>, total: nat) {
    && |rows| == |bounds| + 1 && total == |recorded|
    && (forall i :: 0 <= i < |bounds| ==> rows[i] == Row(bounds[i], AtMost(recorded, bounds[i])))
    && rows[|bounds|] == Row(-1, |recorded|)
  }

  lemma {:induction false} ExportAgrees(bounds: seq<nat>, recorded: seq<int>, entries: seq<Entry>,
                                        sorted: seq<Bucket>, rows: seq<Row>)
    requires Proper(bounds) && Lists(entries, Labelled(bounds, HitCounts(bounds, recorded)))
    requires Ordered(sorted) && multiset(sorted) == multiset(AllParsed(entries)) && rows == Cumulate(sorted)
    ensures Agrees(bounds, recorded, rows, TotalOf(entries))
  {
    SortedWalkIsWanted(bounds, HitCounts(bounds, recorded), entries, sorted);
    WalkTotal(bounds, HitCounts(bounds, recorded), entries, sorted);
    WantedRows(bounds, recorded, sorted, rows);
    WantedTotal(bounds, recorded);
  }

  // ---------------------------------------------------------------- and only then

  lemma {:induction false} LimitIsNeverAbove(b: nat)
    ensures LimitOf(FormatMs(b)) <= b
  {
    if b >= 1000 {
      var c := Rune('0' as int + b / 1000);
      assert '0' <= c <= '9' <==> b / 1000 <= 9;
      assert FormatMs(b) == [c] + "s";
      SecondsLimit(c);
    } else {
      MillisLabel(b);
    }
  }

  lemma {:induction false} StoredUnderLabels(labels: seq<string>, counts: seq<nat>, n: nat, l: string) returns (i: nat)
    requires n <= |labels| == |counts| && l in Stored(labels, counts, n)
    ensures i < n && l == labels[i]
  {
    if l == labels[n - 1] {
      i := n - 1;
    } else {
      i := StoredUnderLabels(labels, counts, n - 1, l);
    }
  }

  lemma {:induction false} FlattenMember(parts: seq<seq<Bucket>>, x: Bucket) returns (k: nat)
    requires x in Flatten(parts)
    ensures k < |parts| && x in parts[k]
  {
    if x in parts[|parts| - 1] {
      k := |parts| - 1;
    } else {
      k := FlattenMember(parts[..|parts| - 1], x);
    }
  }

  lemma {:induction false} LabelLimit(bounds: seq<nat>, j: nat, e: Entry, x: Bucket)
    requires bounds != [] && j <= |bounds| && e.text == Labels(bounds)[j] && x in Parsed(e) && x.le >= 0
    ensures j < |bounds| && x.le == LimitOf(FormatMs(bounds[j]))
  {
    if j < |bounds| {
      ParsedLe(bounds[j], e.count);
    } else {
      ParsedGt(bounds[|bounds| - 1], e.count);
    }
  }

  /** Every exported limit is what some boundary's label reads back as. */
  lemma {:induction false} LimitHasLabel(bounds: seq<nat>, counts: seq<nat>, entries: seq<Entry>, x: Bucket)
    returns (j: nat)
    requires bounds != [] && |counts| == |bounds| + 1 && Lists(entries, Labelled(bounds, counts))
    requires x in AllParsed(entries) && x.le >= 0
    ensures j < |bounds| && x.le == LimitOf(FormatMs(bounds[j]))
  {
    var k := FlattenMember(EachParsed(entries), x);
    var e := entries[k];
    assert e.text in Labelled(bounds, counts) && x in Parsed(e);
    j := StoredUnderLabels(Labels(bounds), counts, |counts|, e.text);
    LabelLimit(bounds, j, e, x);
  }

  /** What the labels of the boundaries read back as. */
  function ReadBack(bounds: seq<nat>): (read: seq<nat>)
    ensures |read| == |bounds|
  {
    seq(|bounds|, i requires 0 <= i < |bounds| => LimitOf(FormatMs(bounds[i])))
  }

  ghost predicate Among(x: nat, s: seq<nat>) {
    exists q :: 0 <= q < |s| && s[q] == x
  }

  /** Labels only ever round down, so if every boundary is read back from some label, it is from its own. */
  lemma {:induction false} OntoIsIdentity(bounds: seq<nat>, read: seq<nat>, i: nat)
    requires Increasing(bounds) && |read| == |bounds| && i < |bounds|
    requires forall q :: 0 <= q < |bounds| ==> read[q] <= bounds[q]
    requires forall p :: 0 <= p < |bounds| ==> Among(bounds[p], read)
    ensures read[i] == bounds[i]
    decreases |bounds| - i
  {
    assert Among(bounds[i], read);
    var j :| 0 <= j < |read| && read[j] == bounds[i];
    assert bounds[i] <= bounds[j] && i <= j;
    if j > i {
      OntoIsIdentity(bounds, read, j);
    }
  }

  /** An export with a row for every boundary has only representable boundaries. */
  lemma {:induction false} RowsNeedRepresentable(bounds: seq<nat>, counts: seq<nat>, entries: seq<Entry>,
                                                 sorted: seq<Bucket>)
    requires bounds != [] && Increasing(bounds) && |counts| == |bounds| + 1 && Lists(entries, Labelled(bounds, counts))
    requires multiset(sorted) == multiset(AllParsed(entries))
    requires forall i :: 0 <= i < |bounds| ==> exists k :: 0 <= k < |sorted| && sorted[k].le == bounds[i]
    ensures AllRepresentable(bounds)
  {
    var read := ReadBack(bounds);
    forall p | 0 <= p < |bounds| ensures Among(bounds[p], read) && read[p] <= bounds[p] {
      var k :| 0 <= k < |sorted| && sorted[k].le == bounds[p];
      assert sorted[k] in multiset(AllParsed(entries));
      var q := LimitHasLabel(bounds, counts, entries, sorted[k]);
      assert read[q] == bounds[p];
      LimitIsNeverAbove(bounds[p]);
    }
    forall i | 0 <= i < |bounds| ensures Representable(bounds[i]) {
      OntoIsIdentity(bounds, read, i);
      LabelReadsBackIff(bounds[i]);
    }
  }

  /** For every sequence of recorded values, any strictly increasing boundaries, any order of walking
      the snapshot and any sort that orders it: the export agrees with the recordings exactly when
      every boundary is below one second or a whole number of seconds from 1 to 9. */
  lemma {:induction false} ExportAgreesIff(bounds: seq<nat>, recorded: seq<int>, entries: seq<Entry>,
                                           sorted: seq<Bucket>, rows: seq<Row>)
    requires bounds != [] && Increasing(bounds) && Lists(entries, Labelled(bounds, HitCounts(bounds, recorded)))
    requires Ordered(sorted) && multiset(sorted) == multiset(AllParsed(entries)) && rows == Cumulate(sorted)
    ensures Agrees(bounds, recorded, rows, TotalOf(entries)) <==> AllRepresentable(bounds)
  {
    if AllRepresentable(bounds) {
      ExportAgrees(bounds, recorded, entries, sorted, rows);
    }
    if Agrees(bounds, recorded, rows, TotalOf(entries)) {
      forall i: nat | i < |bounds| ensures exists k :: 0 <= k < |sorted| && sorted[k].le == bounds[i] {
        CumulateRow(sorted, i);
      }
      RowsNeedRepresentable(bounds, HitCounts(bounds, recorded), entries, sorted);
    }
  }

  /** The collector's built-in boundaries are among those. */
  lemma DefaultBoundsAreProper()
    ensures Proper([1, 5, 10, 25, 50, 100, 250, 500, 1000, 5000])
  {
  }
}

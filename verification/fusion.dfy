/** The sensor fusion engine. Readings are grouped by object id in a map
    ordered by the id string; each group yields one fused reading whose
    confidence is the group's mean and whose other fields are the first
    reading's, except that every later reading strictly more confident than
    the first overrides the light colour, the sign text and the speed and
    direction it reports. A fused reading is dropped when its confidence is
    below the engine's threshold, unless its type is "Bike". */
module Fusion {
  import opened Common
  import opened Readings

  /** The ordering of `std::string`: strict lexicographic order on characters. */
  predicate Below(a: string, b: string)
    decreases |a|
  {
    if |a| == 0 then |b| > 0
    else if |b| == 0 then false
    else if a[0] != b[0] then a[0] < b[0]
    else Below(a[1..], b[1..])
  }

  lemma {:induction false} BelowIrreflexive(a: string)
    ensures !Below(a, a)
    decreases |a|
  {
    if |a| > 0 {
      BelowIrreflexive(a[1..]);
    }
  }

  lemma {:induction false} BelowTransitive(a: string, b: string, c: string)
    requires Below(a, b) && Below(b, c)
    ensures Below(a, c)
    decreases |a|
  {
    if |a| > 0 && a[0] == b[0] && b[0] == c[0] {
      BelowTransitive(a[1..], b[1..], c[1..]);
    }
  }

  lemma {:induction false} BelowTotal(a: string, b: string)
    requires a != b
    ensures Below(a, b) || Below(b, a)
    decreases |a|
  {
    if |a| > 0 && |b| > 0 && a[0] == b[0] {
      assert a == [a[0]] + a[1..] && b == [b[0]] + b[1..];
      BelowTotal(a[1..], b[1..]);
    }
  }

  /** The ids that occur in a list of readings. */
  function Ids(rs: seq<Reading>): set<string>
  {
    set r | r in rs :: r.objectId
  }

  lemma IdsSnoc(rs: seq<Reading>, r: Reading)
    ensures Ids(rs + [r]) == Ids(rs) + {r.objectId}
  {
    var all := rs + [r];
    forall x | x in Ids(all) ensures x in Ids(rs) + {r.objectId} {
      var q :| q in all && q.objectId == x;
      if q != r {
        assert q in rs;
      }
    }
    forall x | x in Ids(rs) + {r.objectId} ensures x in Ids(all) {
      if x == r.objectId {
        assert r in all;
      } else {
        var q :| q in rs && q.objectId == x;
        assert q in all;
      }
    }
  }

  /** The readings of one object, in arrival order: the map entry's vector. */
  function Group(rs: seq<Reading>, id: string): (g: seq<Reading>)
    ensures forall r :: r in g ==> r in rs && r.objectId == id
    ensures forall r :: r in rs && r.objectId == id ==> r in g
    decreases |rs|
  {
    if rs == [] then []
    else
      var n := |rs| - 1;
      assert rs == rs[..n] + [rs[n]];
      Group(rs[..n], id) + (if rs[n].objectId == id then [rs[n]] else [])
  }

  lemma GroupNonEmpty(rs: seq<Reading>, id: string)
    ensures |Group(rs, id)| > 0 <==> id in Ids(rs)
  {
    if id in Ids(rs) {
      var r :| r in rs && r.objectId == id;
      assert r in Group(rs, id);
    }
    if |Group(rs, id)| > 0 {
      assert Group(rs, id)[0] in rs;
    }
  }

  lemma GroupSnoc(rs: seq<Reading>, r: Reading, id: string)
    ensures Group(rs + [r], id) == Group(rs, id) + (if r.objectId == id then [r] else [])
  {
    assert (rs + [r])[..|rs|] == rs;
  }

  /** Sum of the confidences of a group. */
  function Sum(g: seq<Reading>): real
    decreases |g|
  {
    if g == [] then 0.0 else Sum(g[..|g| - 1]) + g[|g| - 1].confidence
  }

  function Mean(g: seq<Reading>): real
    requires |g| > 0
  {
    Sum(g) / |g| as real
  }

  /** One step of the override loop: a reading strictly more confident than
      the fused one overrides each field it reports. */
  function Absorb(fused: Reading, r: Reading): Reading
  {
    if r.confidence > fused.confidence then
      fused.(trafficLight := if r.trafficLight.Some? then r.trafficLight else fused.trafficLight,
             signText := if r.signText != "" then r.signText else fused.signText,
             speed := if r.speed > 0 then r.speed else fused.speed,
             direction := if r.speed > 0 then r.direction else fused.direction)
    else
      fused
  }

  /** The first reading after the override loop has run over `g`. */
  function Overridden(first: Reading, g: seq<Reading>): (f: Reading)
    ensures f.confidence == first.confidence
    ensures f.objectType == first.objectType && f.objectId == first.objectId
    ensures f.position == first.position && f.distance == first.distance
    decreases |g|
  {
    if g == [] then first else Absorb(Overridden(first, g[..|g| - 1]), g[|g| - 1])
  }

  /** The fused reading of one non-empty group. */
  function FuseGroup(g: seq<Reading>): (f: Reading)
    requires |g| > 0
    ensures f.objectType == g[0].objectType && f.objectId == g[0].objectId
    ensures f.position == g[0].position && f.distance == g[0].distance
    ensures f.confidence == Mean(g)
  {
    Overridden(g[0], g).(confidence := Mean(g))
  }

  /** Whether a group's fused reading survives the threshold. */
  predicate Kept(g: seq<Reading>, threshold: real)
    requires |g| > 0
  {
    Mean(g) >= threshold || g[0].objectType == "Bike"
  }

  ghost predicate AscendingIds(out: seq<Reading>)
  {
    forall i, j :: 0 <= i < j < |out| ==> Below(out[i].objectId, out[j].objectId)
  }

  /** What `fuseSensorData` returns: ids strictly ascending, each output the
      fused reading of its id's group, and an input id present exactly when
      its group is kept. */
  ghost predicate FusedSpec(rs: seq<Reading>, threshold: real, out: seq<Reading>)
  {
    && AscendingIds(out)
    && (forall o :: o in out ==>
          o.objectId in Ids(rs) && |Group(rs, o.objectId)| > 0 && o == FuseGroup(Group(rs, o.objectId)))
    && (forall id :: id in Ids(rs) ==>
          |Group(rs, id)| > 0 && (id in Ids(out) <==> Kept(Group(rs, id), threshold)))
  }

  /** One map entry: an id and the readings collected under it. */
  datatype Bucket = Bucket(key: string, members: seq<Reading>)

  function Keys(gs: seq<Bucket>): set<string>
  {
    set b | b in gs :: b.key
  }

  ghost predicate SortedKeys(gs: seq<Bucket>)
  {
    forall i, j :: 0 <= i < j < |gs| ==> Below(gs[i].key, gs[j].key)
  }

  ghost predicate MembersFor(gs: seq<Bucket>, rs: seq<Reading>)
  {
    forall i :: 0 <= i < |gs| ==> gs[i].members == Group(rs, gs[i].key)
  }

  /** `gs` is the ordered map built from `rs`. */
  ghost predicate BucketsFor(gs: seq<Bucket>, rs: seq<Reading>)
  {
    SortedKeys(gs) && MembersFor(gs, rs) && Keys(gs) == Ids(rs)
  }

  lemma SortedKeysDistinct(gs: seq<Bucket>, i: int, j: int)
    requires SortedKeys(gs) && 0 <= i < |gs| && 0 <= j < |gs| && i != j
    ensures gs[i].key != gs[j].key
  {
    if i < j {
      BelowIrreflexive(gs[i].key);
    } else {
      BelowIrreflexive(gs[j].key);
    }
  }

  lemma KeyIndex(gs: seq<Bucket>, id: string) returns (k: int)
    requires id in Keys(gs)
    ensures 0 <= k < |gs| && gs[k].key == id
  {
    var b :| b in gs && b.key == id;
    k :| 0 <= k < |gs| && gs[k] == b;
  }

  /** Placing a new entry between the smaller and the larger keys keeps the
      order and adds its key. */
  lemma Splice(gs: seq<Bucket>, i: int, b: Bucket)
    requires SortedKeys(gs) && 0 <= i <= |gs|
    requires forall j :: 0 <= j < i ==> Below(gs[j].key, b.key)
    requires forall j :: i <= j < |gs| ==> Below(b.key, gs[j].key)
    ensures var s := gs[..i] + [b] + gs[i..];
            && SortedKeys(s)
            && Keys(s) == Keys(gs) + {b.key}
            && (forall p :: 0 <= p < i ==> s[p] == gs[p])
            && s[i] == b
            && (forall p :: i < p < |s| ==> s[p] == gs[p - 1])
  {
    var s := gs[..i] + [b] + gs[i..];
    SpliceAt(gs, i, b);
    SpliceSorted(gs, i, b, s);
    SpliceKeys(gs, i, b, s);
  }

  lemma SpliceAt(gs: seq<Bucket>, i: int, b: Bucket)
    requires 0 <= i <= |gs|
    ensures var s := gs[..i] + [b] + gs[i..];
            && |s| == |gs| + 1
            && (forall p :: 0 <= p < i ==> s[p] == gs[p])
            && s[i] == b
            && (forall p :: i < p < |s| ==> s[p] == gs[p - 1])
  {
  }

  lemma SpliceSorted(gs: seq<Bucket>, i: int, b: Bucket, s: seq<Bucket>)
    requires SortedKeys(gs) && 0 <= i <= |gs| && |s| == |gs| + 1
    requires forall j :: 0 <= j < i ==> Below(gs[j].key, b.key)
    requires forall j :: i <= j < |gs| ==> Below(b.key, gs[j].key)
    requires forall p :: 0 <= p < i ==> s[p] == gs[p]
    requires s[i] == b
    requires forall p :: i < p < |s| ==> s[p] == gs[p - 1]
    ensures SortedKeys(s)
  {
    forall p, q | 0 <= p < q < |s| ensures Below(s[p].key, s[q].key) {
      var x, y := s[p], s[q];
      if q < i {
        assert x == gs[p] && y == gs[q];
      } else if q == i {
        assert x == gs[p] && y == b;
      } else if p < i {
        assert x == gs[p] && y == gs[q - 1];
      } else if p == i {
        assert x == b && y == gs[q - 1];
      } else {
        assert x == gs[p - 1] && y == gs[q - 1];
      }
    }
  }

  lemma SpliceKeys(gs: seq<Bucket>, i: int, b: Bucket, s: seq<Bucket>)
    requires 0 <= i <= |gs| && |s| == |gs| + 1
    requires forall p :: 0 <= p < i ==> s[p] == gs[p]
    requires s[i] == b
    requires forall p :: i < p < |s| ==> s[p] == gs[p - 1]
    ensures Keys(s) == Keys(gs) + {b.key}
  {
    forall x | x in Keys(s) ensures x in Keys(gs) + {b.key} {
      var p := KeyIndex(s, x);
      if p < i {
        assert s[p] == gs[p] && gs[p] in gs;
      } else if p > i {
        assert s[p] == gs[p - 1] && gs[p - 1] in gs;
      } else {
        assert s[p] == b;
      }
    }
    forall x | x in Keys(gs) + {b.key} ensures x in Keys(s) {
      if x == b.key {
        assert s[i] == b && s[i] in s;
      } else {
        var p := KeyIndex(gs, x);
        if p < i {
          assert s[p] == gs[p] && s[p] in s;
        } else {
          assert s[p + 1] == gs[p] && s[p + 1] in s;
        }
      }
    }
  }

  /** Replacing an entry's readings keeps the keys. */
  lemma Replace(gs: seq<Bucket>, i: int, m: seq<Reading>)
    requires 0 <= i < |gs|
    ensures var s := gs[i := Bucket(gs[i].key, m)];
            SortedKeys(gs) ==> SortedKeys(s)
    ensures Keys(gs[i := Bucket(gs[i].key, m)]) == Keys(gs)
  {
    var s := gs[i := Bucket(gs[i].key, m)];
    forall x | x in Keys(s) ensures x in Keys(gs) {
      var p := KeyIndex(s, x);
      assert gs[p] in gs;
    }
    forall x | x in Keys(gs) ensures x in Keys(s) {
      var p := KeyIndex(gs, x);
      assert s[p] in s;
    }
  }

  /** A reading with a key no entry carries leaves every entry's group as it was. */
  lemma MembersSnocOther(gs: seq<Bucket>, rs: seq<Reading>, r: Reading)
    requires MembersFor(gs, rs)
    requires forall j :: 0 <= j < |gs| ==> gs[j].key != r.objectId
    ensures MembersFor(gs, rs + [r])
  {
    forall j | 0 <= j < |gs| ensures gs[j].members == Group(rs + [r], gs[j].key) {
      GroupSnoc(rs, r, gs[j].key);
    }
  }

  /** Appending to the entry that already carries the reading's id. */
  lemma AppendToEntry(gs: seq<Bucket>, rs: seq<Reading>, r: Reading, i: int)
    requires BucketsFor(gs, rs) && 0 <= i < |gs| && gs[i].key == r.objectId
    ensures BucketsFor(gs[i := Bucket(r.objectId, gs[i].members + [r])], rs + [r])
  {
    var id := r.objectId;
    var result := gs[i := Bucket(id, gs[i].members + [r])];
    IdsSnoc(rs, r);
    assert gs[i] in gs;
    Replace(gs, i, gs[i].members + [r]);
    forall j | 0 <= j < |result| ensures result[j].members == Group(rs + [r], result[j].key) {
      GroupSnoc(rs, r, gs[j].key);
      if j != i {
        SortedKeysDistinct(gs, i, j);
      }
    }
  }

  /** Every key from the insertion point on lies above the new id. */
  lemma KeysAbove(gs: seq<Bucket>, id: string, i: int)
    requires SortedKeys(gs) && 0 <= i <= |gs|
    requires i < |gs| ==> gs[i].key != id && !Below(gs[i].key, id)
    ensures forall j :: i <= j < |gs| ==> Below(id, gs[j].key)
  {
    forall j | i <= j < |gs| ensures Below(id, gs[j].key) {
      BelowTotal(gs[i].key, id);
      if j > i {
        BelowTransitive(id, gs[i].key, gs[j].key);
      }
    }
  }

  /** An id strictly between the keys before and after `i` is not a key. */
  lemma KeyAbsent(gs: seq<Bucket>, id: string, i: int)
    requires 0 <= i <= |gs|
    requires forall j :: 0 <= j < i ==> Below(gs[j].key, id)
    requires forall j :: i <= j < |gs| ==> Below(id, gs[j].key)
    ensures id !in Keys(gs)
  {
    BelowIrreflexive(id);
    if id in Keys(gs) {
      var k := KeyIndex(gs, id);
    }
  }

  /** Opening a new entry for an id no entry carries, just before the first
      larger key. */
  lemma OpenEntry(gs: seq<Bucket>, rs: seq<Reading>, r: Reading, i: int)
    requires BucketsFor(gs, rs) && 0 <= i <= |gs|
    requires forall j :: 0 <= j < i ==> Below(gs[j].key, r.objectId)
    requires i < |gs| ==> gs[i].key != r.objectId && !Below(gs[i].key, r.objectId)
    ensures BucketsFor(gs[..i] + [Bucket(r.objectId, [r])] + gs[i..], rs + [r])
  {
    var id := r.objectId;
    var b := Bucket(id, [r]);
    KeysAbove(gs, id, i);
    KeyAbsent(gs, id, i);
    GroupNonEmpty(rs, id);
    GroupSnoc(rs, r, id);
    assert Group(rs + [r], id) == [r];
    IdsSnoc(rs, r);
    forall j | 0 <= j < |gs| ensures gs[j].key != id {
      assert gs[j] in gs;
    }
    MembersSnocOther(gs, rs, r);
    Splice(gs, i, b);
    SpliceMembers(gs, i, b, gs[..i] + [b] + gs[i..], rs + [r]);
  }

  lemma SpliceMembers(gs: seq<Bucket>, i: int, b: Bucket, s: seq<Bucket>, rs: seq<Reading>)
    requires MembersFor(gs, rs) && b.members == Group(rs, b.key)
    requires 0 <= i <= |gs| && |s| == |gs| + 1
    requires forall p :: 0 <= p < i ==> s[p] == gs[p]
    requires s[i] == b
    requires forall p :: i < p < |s| ==> s[p] == gs[p - 1]
    ensures MembersFor(s, rs)
  {
    forall p | 0 <= p < |s| ensures s[p].members == Group(rs, s[p].key) {
      if p > i {
        assert s[p] == gs[p - 1];
      }
    }
  }

  /** `readingsByObject[r.objectId].push_back(r)`: find the entry for the
      id, or insert a new one at its place in the order. */
  method Insert(gs: seq<Bucket>, ghost rs: seq<Reading>, r: Reading) returns (result: seq<Bucket>)
    requires BucketsFor(gs, rs)
    ensures BucketsFor(result, rs + [r])
  {
    var id := r.objectId;
    var i := 0;
    while i < |gs| && Below(gs[i].key, id)
      invariant 0 <= i <= |gs|
      invariant forall j :: 0 <= j < i ==> Below(gs[j].key, id)
    {
      i := i + 1;
    }
    if i < |gs| && gs[i].key == id {
      AppendToEntry(gs, rs, r, i);
      result := gs[i := Bucket(id, gs[i].members + [r])];
    } else {
      OpenEntry(gs, rs, r, i);
      result := gs[..i] + [Bucket(id, [r])] + gs[i..];
    }
  }

  /** The first loop of `fuseSensorData`: every reading into its id's entry. */
  method GroupReadings(allReadings: seq<Reading>) returns (readingsByObject: seq<Bucket>)
    ensures BucketsFor(readingsByObject, allReadings)
  {
    readingsByObject := [];
    for i := 0 to |allReadings|
      invariant BucketsFor(readingsByObject, allReadings[..i])
    {
      assert allReadings[..i + 1] == allReadings[..i] + [allReadings[i]];
      readingsByObject := Insert(readingsByObject, allReadings[..i], allReadings[i]);
    }
    assert allReadings[..|allReadings|] == allReadings;
  }

  /** The inner loop of `fuseSensorData` for one group: sum the
      confidences, apply the overrides, then store the mean. */
  method CombineGroup(g: seq<Reading>) returns (fused: Reading)
    requires |g| > 0
    ensures fused == FuseGroup(g)
  {
    fused := g[0];
    var totalConfidence := 0.0;
    var count := 0;
    for j := 0 to |g|
      invariant fused == Overridden(g[0], g[..j])
      invariant totalConfidence == Sum(g[..j]) && count == j
    {
      assert g[..j + 1][..j] == g[..j];
      var r := g[j];
      totalConfidence := totalConfidence + r.confidence;
      count := count + 1;
      if r.confidence > fused.confidence {
        if r.trafficLight.Some? {
          fused := fused.(trafficLight := r.trafficLight);
        }
        if r.signText != "" {
          fused := fused.(signText := r.signText);
        }
        if r.speed > 0 {
          fused := fused.(speed := r.speed, direction := r.direction);
        }
      }
    }
    assert g[..|g|] == g;
    fused := fused.(confidence := totalConfidence / count as real);
  }

  /** The state of the second loop after the first `j` entries. */
  ghost predicate FilterInv(gs: seq<Bucket>, rs: seq<Reading>, threshold: real, j: int, out: seq<Reading>)
    requires BucketsFor(gs, rs) && 0 <= j <= |gs|
  {
    && AscendingIds(out)
    && (forall p, k :: 0 <= p < |out| && j <= k < |gs| ==> Below(out[p].objectId, gs[k].key))
    && (forall o :: o in out ==>
          o.objectId in Ids(rs) && |Group(rs, o.objectId)| > 0 && o == FuseGroup(Group(rs, o.objectId)))
    && (forall k :: 0 <= k < j ==> |gs[k].members| > 0 && (gs[k].key in Ids(out) <==> Kept(gs[k].members, threshold)))
  }

  lemma EntriesNonEmpty(gs: seq<Bucket>, rs: seq<Reading>, k: int)
    requires BucketsFor(gs, rs) && 0 <= k < |gs|
    ensures gs[k].key in Ids(rs) && |gs[k].members| > 0
  {
    assert gs[k] in gs;
    GroupNonEmpty(rs, gs[k].key);
  }

  lemma FilterStep(gs: seq<Bucket>, rs: seq<Reading>, threshold: real, j: int, out: seq<Reading>, fused: Reading)
    requires BucketsFor(gs, rs) && 0 <= j < |gs| && FilterInv(gs, rs, threshold, j, out)
    requires |gs[j].members| > 0 && fused == FuseGroup(gs[j].members)
    ensures FilterInv(gs, rs, threshold, j + 1,
                      if Kept(gs[j].members, threshold) then out + [fused] else out)
  {
    NextKeyFresh(gs, out, j);
    forall k | 0 <= k < j ensures gs[k].key != gs[j].key {
      SortedKeysDistinct(gs, k, j);
    }
    if Kept(gs[j].members, threshold) {
      KeptStep(gs, rs, threshold, j, out, fused);
    } else {
      DroppedStep(gs, rs, threshold, j, out);
    }
  }

  /** An entry not yet visited has a key above every output so far, hence not among them. */
  lemma NextKeyFresh(gs: seq<Bucket>, out: seq<Reading>, j: int)
    requires 0 <= j < |gs|
    requires forall p, k :: 0 <= p < |out| && j <= k < |gs| ==> Below(out[p].objectId, gs[k].key)
    ensures gs[j].key !in Ids(out)
  {
    if gs[j].key in Ids(out) {
      var o :| o in out && o.objectId == gs[j].key;
      var p :| 0 <= p < |out| && out[p] == o;
      BelowIrreflexive(gs[j].key);
    }
  }

  lemma DroppedStep(gs: seq<Bucket>, rs: seq<Reading>, threshold: real, j: int, out: seq<Reading>)
    requires BucketsFor(gs, rs) && 0 <= j < |gs| && FilterInv(gs, rs, threshold, j, out)
    requires |gs[j].members| > 0 && !Kept(gs[j].members, threshold)
    requires gs[j].key !in Ids(out)
    ensures FilterInv(gs, rs, threshold, j + 1, out)
  {
  }

  lemma KeptStep(gs: seq<Bucket>, rs: seq<Reading>, threshold: real, j: int, out: seq<Reading>, fused: Reading)
    requires BucketsFor(gs, rs) && 0 <= j < |gs| && FilterInv(gs, rs, threshold, j, out)
    requires |gs[j].members| > 0 && fused == FuseGroup(gs[j].members) && Kept(gs[j].members, threshold)
    requires gs[j].key !in Ids(out)
    requires forall k :: 0 <= k < j ==> gs[k].key != gs[j].key
    ensures FilterInv(gs, rs, threshold, j + 1, out + [fused])
  {
    var key := gs[j].key;
    var next := out + [fused];
    EntriesNonEmpty(gs, rs, j);
    IdsSnoc(out, fused);
    assert fused.objectId == key;
    assert AscendingIds(next) by {
      forall p, q | 0 <= p < q < |next| ensures Below(next[p].objectId, next[q].objectId) {
        if q == |out| {
          assert next[p] == out[p];
        } else {
          assert next[p] == out[p] && next[q] == out[q];
        }
      }
    }
    forall p, k | 0 <= p < |next| && j + 1 <= k < |gs| ensures Below(next[p].objectId, gs[k].key) {
      if p == |out| {
        assert Below(key, gs[k].key);
      } else {
        assert next[p] == out[p];
      }
    }
    forall o | o in next
      ensures o.objectId in Ids(rs) && |Group(rs, o.objectId)| > 0 && o == FuseGroup(Group(rs, o.objectId))
    {
      if o != fused {
        assert o in out;
      }
    }
  }

  lemma FilterDone(gs: seq<Bucket>, rs: seq<Reading>, threshold: real, out: seq<Reading>)
    requires BucketsFor(gs, rs) && FilterInv(gs, rs, threshold, |gs|, out)
    ensures FusedSpec(rs, threshold, out)
  {
    forall id | id in Ids(rs)
      ensures |Group(rs, id)| > 0 && (id in Ids(out) <==> Kept(Group(rs, id), threshold))
    {
      var k := KeyIndex(gs, id);
    }
  }

  class SensorFusionEngine {
    const minConfidenceThreshold: real

    constructor (threshold: real)
      ensures minConfidenceThreshold == threshold
    {
      minConfidenceThreshold := threshold;
    }

    method FuseSensorData(allReadings: seq<Reading>) returns (fusedResults: seq<Reading>)
      ensures FusedSpec(allReadings, minConfidenceThreshold, fusedResults)
    {
      var readingsByObject := GroupReadings(allReadings);
      fusedResults := [];
      // Every entry holds at least one reading, so the source's
      // `if (readings.empty()) continue;` never fires.
      for j := 0 to |readingsByObject|
        invariant FilterInv(readingsByObject, allReadings, minConfidenceThreshold, j, fusedResults)
      {
        EntriesNonEmpty(readingsByObject, allReadings, j);
        var readings := readingsByObject[j].members;
        var fused := CombineGroup(readings);
        var isBike := readings[0].objectType == "Bike";
        FilterStep(readingsByObject, allReadings, minConfidenceThreshold, j, fusedResults, fused);
        if fused.confidence >= minConfidenceThreshold || isBike {
          fusedResults := fusedResults + [fused];
        }
      }
      FilterDone(readingsByObject, allReadings, minConfidenceThreshold, fusedResults);
    }
  }

  // ---------------------------------------------------------------------
  // Properties of the fused output

  lemma AscendingDistinct(out: seq<Reading>, i: int, j: int)
    requires AscendingIds(out) && 0 <= i < |out| && 0 <= j < |out| && i != j
    ensures out[i].objectId != out[j].objectId
  {
    if i < j {
      BelowIrreflexive(out[i].objectId);
    } else {
      BelowIrreflexive(out[j].objectId);
    }
  }

  lemma IdsTail(a: seq<Reading>)
    requires AscendingIds(a) && |a| > 0
    ensures Ids(a[1..]) == Ids(a) - {a[0].objectId}
  {
    forall x | x in Ids(a[1..]) ensures x in Ids(a) - {a[0].objectId} {
      var o :| o in a[1..] && o.objectId == x;
      var p :| 0 <= p < |a[1..]| && a[1..][p] == o;
      AscendingDistinct(a, 0, p + 1);
    }
    forall x | x in Ids(a) - {a[0].objectId} ensures x in Ids(a[1..]) {
      var o :| o in a && o.objectId == x;
      var p :| 0 <= p < |a| && a[p] == o;
      assert a[1..][p - 1] == o;
    }
  }

  lemma IdsEmpty(a: seq<Reading>)
    ensures Ids(a) == {} <==> a == []
  {
    if a != [] {
      assert a[0].objectId in Ids(a);
    }
  }

  /** Two id-ascending lists with the same ids that agree on each id are equal. */
  lemma {:induction false} AscendingUnique(a: seq<Reading>, b: seq<Reading>)
    requires AscendingIds(a) && AscendingIds(b) && Ids(a) == Ids(b)
    requires forall x, y :: x in a && y in b && x.objectId == y.objectId ==> x == y
    ensures a == b
    decreases |a|
  {
    IdsEmpty(a);
    IdsEmpty(b);
    if |a| > 0 && |b| > 0 {
      HeadsAgree(a, b);
      TailsAgree(a, b);
      AscendingUnique(a[1..], b[1..]);
      assert a == [a[0]] + a[1..] && b == [b[0]] + b[1..];
    }
  }

  /** Two non-empty id-ascending lists with the same ids start with the same id. */
  lemma HeadsAgree(a: seq<Reading>, b: seq<Reading>)
    requires AscendingIds(a) && AscendingIds(b) && Ids(a) == Ids(b)
    requires |a| > 0 && |b| > 0
    ensures a[0].objectId == b[0].objectId
  {
    assert a[0].objectId in Ids(b) && b[0].objectId in Ids(a);
    var q :| 0 <= q < |b| && b[q].objectId == a[0].objectId;
    var p :| 0 <= p < |a| && a[p].objectId == b[0].objectId;
    if p > 0 && q > 0 {
      BelowTransitive(a[0].objectId, b[0].objectId, a[0].objectId);
      BelowIrreflexive(a[0].objectId);
    }
  }

  /** With equal heads, the tails keep the hypotheses of AscendingUnique. */
  lemma TailsAgree(a: seq<Reading>, b: seq<Reading>)
    requires AscendingIds(a) && AscendingIds(b) && Ids(a) == Ids(b)
    requires forall x, y :: x in a && y in b && x.objectId == y.objectId ==> x == y
    requires |a| > 0 && |b| > 0 && a[0].objectId == b[0].objectId
    ensures a[0] == b[0]
    ensures AscendingIds(a[1..]) && AscendingIds(b[1..]) && Ids(a[1..]) == Ids(b[1..])
    ensures forall x, y :: x in a[1..] && y in b[1..] && x.objectId == y.objectId ==> x == y
  {
    assert a[0] in a && b[0] in b;
    IdsTail(a);
    IdsTail(b);
    assert forall x :: x in a[1..] ==> x in a;
    assert forall y :: y in b[1..] ==> y in b;
  }

  /** The specification determines the output: one reading per kept id. */
  lemma FusedSpecUnique(rs: seq<Reading>, threshold: real, a: seq<Reading>, b: seq<Reading>)
    requires FusedSpec(rs, threshold, a) && FusedSpec(rs, threshold, b)
    ensures a == b
  {
    forall x | x in Ids(a) ensures x in Ids(b) {
      var o :| o in a && o.objectId == x;
    }
    forall x | x in Ids(b) ensures x in Ids(a) {
      var o :| o in b && o.objectId == x;
    }
    AscendingUnique(a, b);
  }

  /** Exactly one output per kept input id: output ids are pairwise distinct
      and are exactly the kept input ids. */
  lemma FusedOnePerId(rs: seq<Reading>, threshold: real, out: seq<Reading>)
    requires FusedSpec(rs, threshold, out)
    ensures forall i, j :: 0 <= i < j < |out| ==> out[i].objectId != out[j].objectId
    ensures Ids(out) <= Ids(rs)
    ensures forall id :: id in Ids(rs) ==> (id in Ids(out) <==> Kept(Group(rs, id), threshold))
  {
    forall i, j | 0 <= i < j < |out| ensures out[i].objectId != out[j].objectId {
      AscendingDistinct(out, i, j);
    }
    forall x | x in Ids(out) ensures x in Ids(rs) {
      var o :| o in out && o.objectId == x;
    }
  }

  lemma {:induction false} SumBounds(g: seq<Reading>)
    requires forall r :: r in g ==> 0.0 <= r.confidence <= 1.0
    ensures 0.0 <= Sum(g) <= |g| as real
    decreases |g|
  {
    if g != [] {
      var n := |g| - 1;
      assert forall r :: r in g[..n] ==> r in g;
      assert g[n] in g;
      SumBounds(g[..n]);
    }
  }

  lemma MeanInUnitInterval(g: seq<Reading>)
    requires |g| > 0
    requires forall r :: r in g ==> 0.0 <= r.confidence <= 1.0
    ensures 0.0 <= Mean(g) <= 1.0
  {
    SumBounds(g);
    var n := |g| as real;
    assert Sum(g) / n <= n / n;
  }

  /** Fused confidences stay in [0, 1] when every input confidence does. */
  lemma FusedConfidenceInUnitInterval(rs: seq<Reading>, threshold: real, out: seq<Reading>)
    requires FusedSpec(rs, threshold, out)
    requires forall r :: r in rs ==> 0.0 <= r.confidence <= 1.0
    ensures forall o :: o in out ==> 0.0 <= o.confidence <= 1.0
  {
    forall o | o in out ensures 0.0 <= o.confidence <= 1.0 {
      MeanInUnitInterval(Group(rs, o.objectId));
    }
  }

  /** A reading that is the only one for its id comes out unchanged. */
  lemma FuseSingleton(r: Reading)
    ensures FuseGroup([r]) == r
  {
    assert [r][..0] == [];
    assert Overridden(r, []) == r;
    assert Overridden(r, [r]) == Absorb(r, r) == r;
    assert Sum([r]) == Sum([]) + r.confidence == r.confidence;
    assert Mean([r]) == r.confidence / 1.0;
  }

  /** A bike is never dropped, whatever its confidence. */
  lemma BikeAlwaysKept(rs: seq<Reading>, threshold: real, out: seq<Reading>, r: Reading)
    requires FusedSpec(rs, threshold, out)
    requires r in rs
    requires forall q :: q in rs && q.objectId == r.objectId ==> q.objectType == "Bike"
    ensures r.objectId in Ids(out)
  {
    assert r.objectId in Ids(rs);
    assert Group(rs, r.objectId)[0] in rs;
  }

  /** Any other object is kept exactly when its mean confidence reaches the threshold. */
  lemma OthersKeptIffThreshold(rs: seq<Reading>, threshold: real, out: seq<Reading>, r: Reading)
    requires FusedSpec(rs, threshold, out)
    requires r in rs
    requires forall q :: q in rs && q.objectId == r.objectId ==> q.objectType != "Bike"
    ensures |Group(rs, r.objectId)| > 0
    ensures r.objectId in Ids(out) <==> Mean(Group(rs, r.objectId)) >= threshold
  {
    assert r.objectId in Ids(rs);
    assert Group(rs, r.objectId)[0] in rs;
  }

  // ---------------------------------------------------------------------
  // The override rule: every later reading strictly more confident than the
  // first may override a field, and the last such reading wins.

  predicate LightOverride(first: Reading, r: Reading)
  {
    r.trafficLight.Some? && r.confidence > first.confidence
  }

  predicate SignOverride(first: Reading, r: Reading)
  {
    r.signText != "" && r.confidence > first.confidence
  }

  predicate MotionOverride(first: Reading, r: Reading)
  {
    r.speed > 0 && r.confidence > first.confidence
  }

  lemma {:induction false} LastLightOverrideWins(first: Reading, g: seq<Reading>, k: int)
    requires 0 <= k < |g| && LightOverride(first, g[k])
    requires forall m :: k < m < |g| ==> !LightOverride(first, g[m])
    ensures Overridden(first, g).trafficLight == g[k].trafficLight
    decreases |g|
  {
    var n := |g| - 1;
    if k < n {
      LastLightOverrideWins(first, g[..n], k);
    }
  }

  lemma {:induction false} LastSignOverrideWins(first: Reading, g: seq<Reading>, k: int)
    requires 0 <= k < |g| && SignOverride(first, g[k])
    requires forall m :: k < m < |g| ==> !SignOverride(first, g[m])
    ensures Overridden(first, g).signText == g[k].signText
    decreases |g|
  {
    var n := |g| - 1;
    if k < n {
      LastSignOverrideWins(first, g[..n], k);
    }
  }

  lemma {:induction false} LastMotionOverrideWins(first: Reading, g: seq<Reading>, k: int)
    requires 0 <= k < |g| && MotionOverride(first, g[k])
    requires forall m :: k < m < |g| ==> !MotionOverride(first, g[m])
    ensures Overridden(first, g).speed == g[k].speed
    ensures Overridden(first, g).direction == g[k].direction
    decreases |g|
  {
    var n := |g| - 1;
    if k < n {
      LastMotionOverrideWins(first, g[..n], k);
    }
  }

  /** Without a light override the light is the first reading's. */
  lemma {:induction false} LightWithoutOverride(first: Reading, g: seq<Reading>)
    requires forall m :: 0 <= m < |g| ==> !LightOverride(first, g[m])
    ensures Overridden(first, g).trafficLight == first.trafficLight
    decreases |g|
  {
    if g != [] {
      var n := |g| - 1;
      assert forall m :: 0 <= m < n ==> g[..n][m] == g[m];
      LightWithoutOverride(first, g[..n]);
    }
  }

  /** Without a sign override the sign text is the first reading's. */
  lemma {:induction false} SignWithoutOverride(first: Reading, g: seq<Reading>)
    requires forall m :: 0 <= m < |g| ==> !SignOverride(first, g[m])
    ensures Overridden(first, g).signText == first.signText
    decreases |g|
  {
    if g != [] {
      var n := |g| - 1;
      assert forall m :: 0 <= m < n ==> g[..n][m] == g[m];
      SignWithoutOverride(first, g[..n]);
    }
  }

  /** Without a motion override speed and direction are the first reading's. */
  lemma {:induction false} MotionWithoutOverride(first: Reading, g: seq<Reading>)
    requires forall m :: 0 <= m < |g| ==> !MotionOverride(first, g[m])
    ensures Overridden(first, g).speed == first.speed
    ensures Overridden(first, g).direction == first.direction
    decreases |g|
  {
    if g != [] {
      var n := |g| - 1;
      assert forall m :: 0 <= m < n ==> g[..n][m] == g[m];
      MotionWithoutOverride(first, g[..n]);
    }
  }

  /** The rule is not "the single most confident reading wins": the light
      comes from the last reading above the first one's confidence, here the
      0.6 one rather than the 0.9 one. */
  lemma LastOverrideNotMostConfident(p: Position)
    ensures var first := Reading("TrafficLight", p, "TrafficLight:1", 0.5, 1, 0, None, "", None);
            var g := [first, first.(confidence := 0.9, trafficLight := Some(Red)),
                      first.(confidence := 0.6, trafficLight := Some(Yellow))];
            && FuseGroup(g).trafficLight == Some(Yellow)
            && FuseGroup(g).confidence == (0.5 + 0.9 + 0.6) / 3.0
  {
    var first := Reading("TrafficLight", p, "TrafficLight:1", 0.5, 1, 0, None, "", None);
    var g := [first, first.(confidence := 0.9, trafficLight := Some(Red)),
              first.(confidence := 0.6, trafficLight := Some(Yellow))];
    LastLightOverrideWins(first, g, 2);
    assert g[..2][..1] == g[..1] && g[..1][..0] == [] && g[..3] == g;
    assert Sum(g[..1]) == 0.5;
    assert Sum(g[..2]) == 0.5 + 0.9;
    assert Sum(g) == Sum(g[..2]) + 0.6;
  }
}

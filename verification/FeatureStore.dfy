/**
 The feature write-ahead log: fixed-size records appended to a memory-mapped file, labels stitched into
 their trailers later, an in-memory index rebuilt by scanning the bytes, and compaction.

 The mapped file is modelled as its record slots, each a byte string of one record; an offset is a slot
 number. The ghost field `log` is the sequence of records the bytes stand for.
 */
module FeatureStores {
  import opened Options
  import opened Words
  import opened WalCodec

  /* An insertion-ordered dictionary from intent id to slot. */
  datatype Entry = Entry(id: int, slot: nat)

  type Index = seq<Entry>

  datatype LabelData = LabelData(outcome: int, exitPx: int, pnlBps: int)

  function Find(ix: Index, id: int): (p: Option<nat>)
    ensures p.Some? ==> p.value < |ix| && ix[p.value].id == id
    ensures p.None? ==> forall i :: 0 <= i < |ix| ==> ix[i].id != id
  {
    if ix == [] then None
    else if ix[|ix| - 1].id == id then Some(|ix| - 1)
    else Find(ix[..|ix| - 1], id)
  }

  /** Dictionary assignment: an existing key keeps its position. */
  function Put(ix: Index, id: int, slot: nat): Index {
    var p := Find(ix, id);
    if p.Some? then ix[p.value := Entry(id, slot)] else ix + [Entry(id, slot)]
  }

  /** The index a log should have: every id at its latest record. */
  function IndexOf(log: seq<Record>): Index {
    if log == [] then [] else Put(IndexOf(log[..|log| - 1]), log[|log| - 1].id, |log| - 1)
  }

  ghost predicate IndexSound(ix: Index, log: seq<Record>) {
    && (forall i, j :: 0 <= i < j < |ix| ==> ix[i].id != ix[j].id)
    && (forall e :: e in ix ==> e.slot < |log| && log[e.slot].id == e.id)
    && (forall k :: 0 <= k < |log| ==> Find(ix, log[k].id).Some?)
  }

  lemma {:induction false} PutFinds(ix: Index, id: int, slot: nat, other: int)
    requires forall i, j :: 0 <= i < j < |ix| ==> ix[i].id != ix[j].id
    ensures Find(Put(ix, id, slot), other).Some? <==> Find(ix, other).Some? || other == id
  {
    var n := Put(ix, id, slot);
    var p := Find(ix, id);
    if Find(ix, other).Some? {
      var q := Find(ix, other).value;
      assert n[q].id == other;
    }
    if other == id {
      assert n[if p.Some? then p.value else |ix|].id == id;
    }
    if Find(n, other).Some? && other != id {
      var q := Find(n, other).value;
      assert n[q] == ix[q];
    }
  }

  lemma {:induction false} PutKeepsSound(ix: Index, log: seq<Record>, r: Record)
    requires IndexSound(ix, log)
    ensures IndexSound(Put(ix, r.id, |log|), log + [r])
  {
    var n, longer := Put(ix, r.id, |log|), log + [r];
    forall k | 0 <= k < |longer|
      ensures Find(n, longer[k].id).Some?
    {
      PutFinds(ix, r.id, |log|, longer[k].id);
      if k < |log| {
        assert Find(ix, log[k].id).Some?;
      }
    }
    forall e | e in n
      ensures e.slot < |longer| && longer[e.slot].id == e.id
    {
      assert e == Entry(r.id, |log|) || e in ix;
    }
  }

  lemma {:induction false} IndexOfNext(log: seq<Record>, p: nat)
    requires p < |log|
    ensures IndexOf(log[..p + 1]) == Put(IndexOf(log[..p]), log[p].id, p)
  {
    assert log[..p + 1][..p] == log[..p];
  }

  lemma {:induction false} IndexIsSound(log: seq<Record>)
    ensures IndexSound(IndexOf(log), log)
    decreases |log|
  {
    if log != [] {
      var n := |log| - 1;
      IndexIsSound(log[..n]);
      PutKeepsSound(IndexOf(log[..n]), log[..n], log[n]);
      assert log[..n] + [log[n]] == log;
    }
  }

  /** Relabelling a record leaves ids and places alone. */
  lemma {:induction false} IndexIgnoresLabels(a: seq<Record>, b: seq<Record>)
    requires |a| == |b| && forall k :: 0 <= k < |a| ==> a[k].id == b[k].id
    ensures IndexOf(a) == IndexOf(b)
    decreases |a|
  {
    if a != [] {
      IndexIgnoresLabels(a[..|a| - 1], b[..|b| - 1]);
    }
  }

  function Relabel(r: Record, l: LabelData): Record {
    r.(outcome := l.outcome, exitPx := l.exitPx, pnlBps := l.pnlBps, labeled := true)
  }

  predicate Packable(l: LabelData) { Int64(l.outcome) && Int64(l.exitPx) && Int64(l.pnlBps) }

  /* ---- the operations on the log as a value ---- */

  datatype Wal = Wal(log: seq<Record>, pending: map<int, LabelData>)

  /** The record at `slot` with a label written into it, if the label can be packed. */
  function LabelAt(log: seq<Record>, slot: nat, l: LabelData): seq<Record>
    requires slot < |log|
  {
    if Packable(l) then log[slot := Relabel(log[slot], l)] else log
  }

  function SlotOf(log: seq<Record>, id: int): Option<nat> {
    var p := Find(IndexOf(log), id);
    if p.Some? then Some(IndexOf(log)[p.value].slot) else None
  }

  function Appended(w: Wal, id: int, ts: int, features: seq<int>): Wal {
    var grown := w.log + [Record(id, ts, features, 0, 0, 0, false)];
    if id in w.pending then Wal(LabelAt(grown, |w.log|, w.pending[id]), w.pending - {id})
    else w.(log := grown)
  }

  function Stitched(w: Wal, id: int, l: LabelData): Wal
    requires IndexSound(IndexOf(w.log), w.log)
  {
    var s := SlotOf(w.log, id);
    if s.Some? then w.(log := LabelAt(w.log, s.value, l)) else w.(pending := w.pending[id := l])
  }

  /** The slots of the indexed records that are not labelled, in index order. */
  function Unlabeled(ix: Index, log: seq<Record>): (ss: seq<nat>)
    requires forall e :: e in ix ==> e.slot < |log|
    ensures forall i :: 0 <= i < |ss| ==> ss[i] < |log|
    ensures |ss| <= |ix|
  {
    if ix == [] then []
    else
      var before := Unlabeled(ix[..|ix| - 1], log);
      var s := ix[|ix| - 1].slot;
      if log[s].labeled then before else before + [s]
  }

  /** Features and outcome of the indexed records, all of them or the labelled ones, in index order. */
  function Exported(ix: Index, log: seq<Record>, onlyLabeled: bool): seq<(seq<int>, int)>
    requires forall e :: e in ix ==> e.slot < |log|
  {
    if ix == [] then []
    else
      var before := Exported(ix[..|ix| - 1], log, onlyLabeled);
      var r := log[ix[|ix| - 1].slot];
      if onlyLabeled && !r.labeled then before else before + [(r.features, r.outcome)]
  }

  function Pick(log: seq<Record>, ss: seq<nat>): (r: seq<Record>)
    requires forall i :: 0 <= i < |ss| ==> ss[i] < |log|
    ensures |r| == |ss| && forall i :: 0 <= i < |ss| ==> r[i] == log[ss[i]]
  {
    seq(|ss|, i requires 0 <= i < |ss| => log[ss[i]])
  }

  function Compacted(log: seq<Record>): seq<Record>
    requires IndexSound(IndexOf(log), log)
  {
    var ss := Unlabeled(IndexOf(log), log);
    if |ss| == |log| then log else Pick(log, ss)
  }

  /* The new index: kept ids at 0, 1, 2, ... */
  function Renumbered(log: seq<Record>): (ix: Index)
    ensures |ix| == |log| && forall k :: 0 <= k < |log| ==> ix[k] == Entry(log[k].id, k)
  {
    seq(|log|, k requires 0 <= k < |log| => Entry(log[k].id, k))
  }

  lemma {:induction false} DistinctIndex(log: seq<Record>)
    requires forall i, j :: 0 <= i < j < |log| ==> log[i].id != log[j].id
    ensures IndexOf(log) == Renumbered(log)
    decreases |log|
  {
    if log != [] {
      var n := |log| - 1;
      DistinctIndex(log[..n]);
      var before := Renumbered(log[..n]);
      assert forall i :: 0 <= i < n ==> before[i].id != log[n].id;
      assert Find(before, log[n].id).None?;
    }
  }

  lemma {:induction false} UnlabeledSlots(ix: Index, log: seq<Record>)
    requires forall e :: e in ix ==> e.slot < |log| && log[e.slot].id == e.id
    requires forall i, j :: 0 <= i < j < |ix| ==> ix[i].id != ix[j].id
    ensures var ss := Unlabeled(ix, log);
            && (forall i :: 0 <= i < |ss| ==> !log[ss[i]].labeled && exists e :: e in ix && e.slot == ss[i])
            && (forall i, j :: 0 <= i < j < |ss| ==> log[ss[i]].id != log[ss[j]].id)
            && (forall e :: e in ix && !log[e.slot].labeled ==> e.slot in ss)
    decreases |ix|
  {
    if ix != [] {
      var n := |ix| - 1;
      UnlabeledSlots(ix[..n], log);
      assert forall e :: e in ix ==> e in ix[..n] || e == ix[n];
      assert forall e :: e in ix[..n] ==> e in ix && e.id != ix[n].id && log[e.slot].id == e.id;
    }
  }

  /* What the rewriting half of compaction relies on. */
  lemma {:induction false} KeptIndex(log: seq<Record>)
    requires IndexSound(IndexOf(log), log)
    ensures var keep := Unlabeled(IndexOf(log), log);
            && |keep| <= |log|
            && (forall i :: 0 <= i < |keep| ==> keep[i] < |log|)
            && IndexOf(Pick(log, keep)) == Renumbered(Pick(log, keep))
  {
    UnlabeledSlots(IndexOf(log), log);
    KeepIsShorter(log);
    DistinctIndex(Pick(log, Unlabeled(IndexOf(log), log)));
  }

  /* ---- the bytes a log stands in ---- */

  function RecordSize(n: nat): nat { HEADER + 8 * n + TRAILER }

  /* The bytes are the encoded record, which does not look like the end marker. */
  ghost predicate Keeps(bytes: seq<Byte>, r: Record, n: nat) {
    Storable(r) && |r.features| == n && (r.id != 0 || r.ts != 0) && bytes == Encode(r)
  }

  /* Slot by slot the encoded log, followed by zeros. */
  ghost predicate BytesMatch(bytes: seq<seq<Byte>>, log: seq<Record>, n: nat) {
    && |log| <= |bytes|
    && (forall k :: 0 <= k < |log| ==> Keeps(bytes[k], log[k], n))
    && (forall k :: |log| <= k < |bytes| ==> bytes[k] == Zeros(RecordSize(n)))
  }

  lemma {:induction false} MatchAfterAppend(bytes: seq<seq<Byte>>, log: seq<Record>, n: nat, b: seq<Byte>, r: Record)
    requires BytesMatch(bytes, log, n) && |log| < |bytes| && Keeps(b, r, n)
    ensures BytesMatch(bytes[|log| := b], log + [r], n)
  {
  }

  lemma {:induction false} MatchAfterRelabel(bytes: seq<seq<Byte>>, log: seq<Record>, n: nat, slot: nat, b: seq<Byte>,
                                             r: Record)
    requires BytesMatch(bytes, log, n) && slot < |log| && Keeps(b, r, n)
    ensures BytesMatch(bytes[slot := b], log[slot := r], n)
  {
  }

  lemma {:induction false} MatchAfterRefill(bytes: seq<seq<Byte>>, data: seq<seq<Byte>>, records: seq<Record>, n: nat)
    requires BytesMatch(data, records, n) && |data| == |records| <= |bytes|
    requires forall k :: 0 <= k < |bytes| ==> bytes[k] == if k < |data| then data[k] else Zeros(RecordSize(n))
    ensures BytesMatch(bytes, records, n)
  {
  }

  lemma {:induction false} IndexAfterAppend(log: seq<Record>, r: Record)
    ensures IndexOf(log + [r]) == Put(IndexOf(log), r.id, |log|)
  {
    assert (log + [r])[..|log|] == log;
  }

  /* ---- queued labels ---- */

  /* A label waits only for an id that has no record yet. */
  ghost predicate Waiting(w: Wal) {
    forall k :: 0 <= k < |w.log| ==> w.log[k].id !in w.pending
  }

  lemma {:induction false} NoSlotMeansNoRecord(log: seq<Record>, id: int)
    ensures SlotOf(log, id).None? <==> forall k :: 0 <= k < |log| ==> log[k].id != id
  {
    IndexIsSound(log);
    var p := Find(IndexOf(log), id);
    if p.Some? {
      assert IndexOf(log)[p.value] in IndexOf(log);
    }
  }

  lemma {:induction false} AppendKeepsWaiting(w: Wal, id: int, ts: int, features: seq<int>)
    requires Waiting(w)
    ensures Waiting(Appended(w, id, ts, features))
  {
    var r := Appended(w, id, ts, features);
    assert forall k :: 0 <= k < |w.log| ==> r.log[k].id == w.log[k].id;
    assert r.log[|w.log|].id == id && id !in r.pending;
  }

  lemma {:induction false} StitchKeepsWaiting(w: Wal, id: int, l: LabelData)
    requires Waiting(w)
    ensures IndexSound(IndexOf(w.log), w.log) && Waiting(Stitched(w, id, l))
  {
    IndexIsSound(w.log);
    NoSlotMeansNoRecord(w.log, id);
    var r := Stitched(w, id, l);
    assert forall k :: 0 <= k < |w.log| ==> r.log[k].id == w.log[k].id;
  }

  lemma {:induction false} CompactionKeepsWaiting(w: Wal)
    requires Waiting(w)
    ensures IndexSound(IndexOf(w.log), w.log) && Waiting(w.(log := Compacted(w.log)))
  {
    IndexIsSound(w.log);
  }

  class FeatureStore {
    const nFeatures: nat
    const maxEntries: nat
    const wal: array<seq<Byte>>
    var index: Index
    var pos: nat
    var count: nat
    var pending: map<int, LabelData>
    ghost var log: seq<Record>

    /* The bytes are the encoded log followed by zeros; no record looks like the end marker. */
    ghost predicate BytesHold()
      reads this, wal
    {
      wal.Length == maxEntries && Int64(nFeatures) && BytesMatch(wal[..], log, nFeatures)
    }

    /* What the bytes determine. */
    ghost predicate Indexed()
      reads this, wal
    {
      BytesHold() && pos == |log| && count == |log| && index == IndexOf(log)
    }

    ghost predicate Valid()
      reads this, wal
    {
      Indexed() && Waiting(State())
    }

    ghost function State(): Wal
      reads this
    {
      Wal(log, pending)
    }

    constructor (nFeatures: nat, maxEntries: nat)
      requires Int64(nFeatures)
      ensures Valid() && log == [] && pending == map[] && fresh(wal)
      ensures this.nFeatures == nFeatures && this.maxEntries == maxEntries
    {
      this.nFeatures, this.maxEntries := nFeatures, maxEntries;
      wal := new seq<Byte>[maxEntries](_ => Zeros(RecordSize(nFeatures)));
      index, pos, count, pending, log := [], 0, 0, map[], [];
    }

    /**
     Opening the log again after the volatile fields were lost: queued labels are gone, and `_rebuild_index`
     brings the rest back from the bytes alone.
     */
    method Recover()
      requires BytesHold()
      modifies this`index, this`pos, this`count, this`pending
      ensures Valid() && pending == map[]
      ensures old(Indexed()) ==> index == old(index) && pos == old(pos) && count == old(count)
    {
      index, count, pending := [], 0, map[];
      var p := 0;
      while p < maxEntries
        invariant p <= |log| && p <= maxEntries && count == p && index == IndexOf(log[..p]) && pending == map[]
      {
        var id, ts, n := ReadSlotHeader(p);
        if id == 0 && ts == 0 {
          break;
        }
        if n != nFeatures {
          break;
        }
        IndexOfNext(log, p);
        index := Put(index, id, p);
        count := count + 1;
        p := p + 1;
      }
      pos := p;
      assert log[..|log|] == log;
    }

    /* The header of a slot: that of its record, or the end marker past the last one. */
    method ReadSlotHeader(p: nat) returns (id: int, ts: int, n: int)
      requires BytesHold() && p < maxEntries
      ensures p < |log| ==> id == log[p].id && n == nFeatures && (id != 0 || ts != 0)
      ensures p >= |log| ==> id == 0 && ts == 0
    {
      assert wal[..][p] == wal[p];
      if p < |log| {
        assert Keeps(wal[..][p], log[p], nFeatures);
        RecordRoundTrip(log[p]);
      } else {
        ZeroHeader(RecordSize(nFeatures));
      }
      var (i, t, k) := ReadHeader(wal[p]);
      return i, t, k;
    }

    /* What a record's slot says about its features and its label. */
    method ReadSlot(p: nat) returns (features: seq<int>, outcome: int, labeled: bool)
      requires BytesHold() && p < |log|
      ensures features == log[p].features && outcome == log[p].outcome && labeled == log[p].labeled
    {
      assert wal[..][p] == wal[p] && Keeps(wal[..][p], log[p], nFeatures);
      RecordRoundTrip(log[p]);
      features := ReadFeatures(wal[p], nFeatures);
      var (o, l) := ReadTrailer(wal[p], nFeatures);
      return features, o, l;
    }

    /* `now` is the wall clock in milliseconds, used when no timestamp is given. */
    method AppendFeatures(id: int, features: seq<int>, timestamp: int, now: int) returns (ok: bool)
      requires Valid() && now != 0
      requires forall i :: 0 <= i < |features| ==> Int64(features[i])
      modifies this, wal
      ensures Valid()
      ensures var ts := if timestamp == 0 then now else timestamp;
              && (ok <==> |old(log)| < maxEntries && |features| == nFeatures && Int64(id) && Int64(ts))
              && State() == (if ok then Appended(old(State()), id, ts, features) else old(State()))
    {
      var ts := if timestamp == 0 then now else timestamp;
      if count >= maxEntries || |features| != nFeatures || !Int64(id) || !Int64(ts) {
        return false;
      }
      var slot := pos;
      AppendKeepsWaiting(State(), id, ts, features);
      WriteRecord(id, ts, features);
      if id in pending {
        var l := pending[id];
        pending := pending - {id};
        var _ := WriteLabelAt(slot, l);
      }
      return true;
    }

    method WriteRecord(id: int, ts: int, features: seq<int>)
      requires Indexed() && count < maxEntries && |features| == nFeatures && Int64(id) && Int64(ts) && ts != 0
      requires forall i :: 0 <= i < |features| ==> Int64(features[i])
      modifies this`index, this`pos, this`count, this`log, wal
      ensures Indexed() && log == old(log) + [Record(id, ts, features, 0, 0, 0, false)]
    {
      ghost var r := Record(id, ts, features, 0, 0, 0, false);
      var bytes := Header(id, ts, nFeatures) + PackAll(features) + Trailer(0, 0, 0, false);
      MatchAfterAppend(wal[..], log, nFeatures, bytes, r);
      IndexAfterAppend(log, r);
      wal[pos] := bytes;
      assert wal[..] == old(wal[..])[pos := bytes];
      index := Put(index, id, pos);
      pos := pos + 1;
      count := count + 1;
      log := log + [r];
    }

    method WriteLabelAt(slot: nat, l: LabelData) returns (ok: bool)
      requires Indexed() && slot < |log|
      modifies this`log, wal
      ensures Indexed() && log == LabelAt(old(log), slot, l) && ok == Packable(l)
    {
      if !Packable(l) {
        return false;
      }
      ghost var r := Relabel(log[slot], l);
      assert Keeps(wal[..][slot], log[slot], nFeatures);
      RelabelBytes(log[slot], l.outcome, l.exitPx, l.pnlBps);
      var bytes := WithTrailer(wal[slot], nFeatures, Trailer(l.outcome, l.exitPx, l.pnlBps, true));
      MatchAfterRelabel(wal[..], log, nFeatures, slot, bytes, r);
      IndexIgnoresLabels(log[slot := r], log);
      wal[slot] := bytes;
      assert wal[..] == old(wal[..])[slot := bytes];
      log := log[slot := r];
      return true;
    }

    method StitchLabel(id: int, l: LabelData) returns (ok: bool)
      requires Valid()
      modifies this, wal
      ensures Valid() && IndexSound(IndexOf(old(log)), old(log)) && State() == Stitched(old(State()), id, l)
      ensures ok <==> SlotOf(old(log), id).Some? && Packable(l)
    {
      IndexIsSound(log);
      StitchKeepsWaiting(State(), id, l);
      var p := Find(index, id);
      if p.None? {
        pending := pending[id := l];
        return false;
      }
      ok := WriteLabelAt(index[p.value].slot, l);
    }

    /** `compaction`: labelled records go, and the rest is rewritten from the front. */
    method Compaction() returns (removed: nat)
      requires Valid()
      modifies this, wal
      ensures Valid() && IndexSound(IndexOf(old(log)), old(log))
      ensures log == Compacted(old(log)) && pending == old(pending) && removed == |old(log)| - |log|
    {
      IndexIsSound(log);
      var keep := KeptSlots();
      if |keep| == count {
        return 0;
      }
      KeptIndex(log);
      CompactionKeepsWaiting(State());
      removed := count - |keep|;
      Rewrite(keep);
    }

    /* The first loop of compaction: which indexed records are not labelled. */
    method KeptSlots() returns (keep: seq<nat>)
      requires Indexed() && IndexSound(index, log)
      ensures keep == Unlabeled(index, log)
    {
      keep := [];
      for i := 0 to |index|
        invariant keep == Unlabeled(index[..i], log)
      {
        var s := index[i].slot;
        var _, _, labeled := ReadSlot(s);
        assert index[..i + 1][..i] == index[..i];
        if !labeled {
          keep := keep + [s];
        }
      }
      assert index[..|index|] == index;
    }

    /* The second half: copy the kept records out, write them back from slot 0, zero the rest. */
    method Rewrite(keep: seq<nat>)
      requires Indexed() && |keep| <= |log|
      requires forall i :: 0 <= i < |keep| ==> keep[i] < |log|
      requires IndexOf(Pick(log, keep)) == Renumbered(Pick(log, keep))
      modifies this`index, this`pos, this`count, this`log, wal
      ensures Indexed() && log == Pick(old(log), keep) && pending == old(pending)
    {
      ghost var picked := Pick(log, keep);
      var data := ReadSlots(keep);
      index := ReadIndex(data, picked);
      pos, count := |keep|, |keep|;
      Refill(data, picked);
    }

    /* The bytes of the new log at the front, zeros behind. */
    method Refill(data: seq<seq<Byte>>, ghost records: seq<Record>)
      requires wal.Length == maxEntries && Int64(nFeatures) && |data| <= maxEntries
      requires BytesMatch(data, records, nFeatures) && |data| == |records|
      modifies this`log, wal
      ensures BytesHold() && log == records && pending == old(pending)
    {
      WriteSlots(data);
      MatchAfterRefill(wal[..], data, records, nFeatures);
      log := records;
    }

    /* The rebuilt index: each kept id at its new slot. */
    method ReadIndex(data: seq<seq<Byte>>, ghost records: seq<Record>) returns (ix: Index)
      requires BytesMatch(data, records, nFeatures) && |data| == |records|
      ensures ix == Renumbered(records)
    {
      ix := [];
      for i := 0 to |data|
        invariant ix == Renumbered(records)[..i]
      {
        assert Keeps(data[i], records[i], nFeatures);
        RecordRoundTrip(records[i]);
        ix := ix + [Entry(ReadHeader(data[i]).0, i)];
      }
      assert Renumbered(records)[..|data|] == Renumbered(records);
    }

    method WriteSlots(data: seq<seq<Byte>>)
      requires |data| <= wal.Length
      modifies wal
      ensures forall k :: 0 <= k < wal.Length ==> wal[k] == if k < |data| then data[k] else Zeros(RecordSize(nFeatures))
    {
      forall k | 0 <= k < wal.Length { wal[k] := if k < |data| then data[k] else Zeros(RecordSize(nFeatures)); }
    }

    /** `export_training_data`: features and outcomes as they were written, read back from the bytes. */
    method ExportTrainingData(onlyLabeled: bool) returns (rows: seq<(seq<int>, int)>)
      requires Valid()
      ensures IndexSound(index, log) && rows == Exported(index, log, onlyLabeled)
    {
      IndexIsSound(log);
      rows := [];
      for i := 0 to |index|
        invariant rows == Exported(index[..i], log, onlyLabeled)
      {
        var features, outcome, labeled := ReadSlot(index[i].slot);
        assert index[..i + 1][..i] == index[..i];
        if onlyLabeled && !labeled {
          continue;
        }
        rows := rows + [(features, outcome)];
      }
      assert index[..|index|] == index;
    }

    method ReadSlots(keep: seq<nat>) returns (data: seq<seq<Byte>>)
      requires BytesHold() && forall i :: 0 <= i < |keep| ==> keep[i] < |log|
      ensures |data| == |keep| && BytesMatch(data, Pick(log, keep), nFeatures)
    {
      data := [];
      for i := 0 to |keep|
        invariant |data| == i && forall k :: 0 <= k < i ==> Keeps(data[k], log[keep[k]], nFeatures)
      {
        assert wal[..][keep[i]] == wal[keep[i]] && Keeps(wal[..][keep[i]], log[keep[i]], nFeatures);
        data := data + [wal[keep[i]]];
      }
    }
  }

  lemma {:induction false} KeepIsShorter(log: seq<Record>)
    requires IndexSound(IndexOf(log), log)
    ensures |Unlabeled(IndexOf(log), log)| <= |log|
  {
    IndexNotLonger(log);
  }

  lemma {:induction false} IndexNotLonger(log: seq<Record>)
    ensures |IndexOf(log)| <= |log|
    decreases |log|
  {
    if log != [] {
      IndexNotLonger(log[..|log| - 1]);
    }
  }

  /* ---- what the log guarantees ---- */

  /** A label stitched to a known id changes the label of its newest record, and of nothing else. */
  lemma {:induction false} StitchLabelsTheLatest(w: Wal, id: int, l: LabelData, k: nat)
    requires Latest(w.log, k) && w.log[k].id == id && Packable(l)
    ensures IndexSound(IndexOf(w.log), w.log)
    ensures var r, was := Stitched(w, id, l), w.log[k];
            && r.pending == w.pending && |r.log| == |w.log|
            && r.log[k] == Record(was.id, was.ts, was.features, l.outcome, l.exitPx, l.pnlBps, true)
            && forall j :: 0 <= j < |w.log| && j != k ==> r.log[j] == w.log[j]
  {
    IndexHoldsTheLatest(w.log);
    var ix := IndexOf(w.log);
    assert Entry(id, k) in ix;
    var p := Find(ix, id);
    assert p.Some? && ix[p.value].id == id && ix[p.value] in ix;
    LatestIsOne(w.log, k, ix[p.value].slot);
  }

  lemma {:induction false} LatestIsOne(log: seq<Record>, j: nat, k: nat)
    requires Latest(log, j) && Latest(log, k) && log[j].id == log[k].id
    ensures j == k
  {
  }

  /* The newest record of its id. */
  ghost predicate Latest(log: seq<Record>, k: nat) {
    k < |log| && forall j :: k < j < |log| ==> log[j].id != log[k].id
  }

  lemma {:induction false} PutSlots(ix: Index, id: int, slot: nat, e: Entry)
    requires forall i, j :: 0 <= i < j < |ix| ==> ix[i].id != ix[j].id
    ensures e in Put(ix, id, slot) <==> (e in ix && e.id != id) || e == Entry(id, slot)
  {
    var n, p := Put(ix, id, slot), Find(ix, id);
    if e in ix && e.id != id {
      var i :| 0 <= i < |ix| && ix[i] == e;
      assert n[i] == e;
    }
    if e == Entry(id, slot) {
      assert n[if p.Some? then p.value else |ix|] == e;
    }
    if e in n && e != Entry(id, slot) {
      var i :| 0 <= i < |n| && n[i] == e;
      assert ix[i] == e;
    }
  }

  lemma {:induction false} LatestOneMore(earlier: seq<Record>, log: seq<Record>, k: nat)
    requires log != [] && earlier == log[..|log| - 1]
    ensures Latest(log, k) <==> k == |earlier| || (Latest(earlier, k) && log[k].id != log[|log| - 1].id)
  {
    assert forall j :: 0 <= j < |earlier| ==> earlier[j] == log[j];
  }

  /** The index holds exactly the newest record of every id. */
  lemma {:induction false} IndexHoldsTheLatest(log: seq<Record>)
    ensures IndexSound(IndexOf(log), log)
    ensures forall e :: e in IndexOf(log) <==> Latest(log, e.slot) && log[e.slot].id == e.id
    decreases |log|
  {
    IndexIsSound(log);
    if log != [] {
      var n := |log| - 1;
      var earlier, id := log[..n], log[n].id;
      IndexHoldsTheLatest(earlier);
      forall e
        ensures e in IndexOf(log) <==> Latest(log, e.slot) && log[e.slot].id == e.id
      {
        PutSlots(IndexOf(earlier), id, n, e);
        LatestOneMore(earlier, log, e.slot);
      }
    }
  }

  /* The slots that an export reads, in index order. */
  function ExportedSlots(ix: Index, log: seq<Record>, onlyLabeled: bool): (ss: seq<nat>)
    requires forall e :: e in ix ==> e.slot < |log|
    ensures forall s :: s in ss ==> s < |log|
  {
    if ix == [] then []
    else
      var before, s := ExportedSlots(ix[..|ix| - 1], log, onlyLabeled), ix[|ix| - 1].slot;
      if onlyLabeled && !log[s].labeled then before else before + [s]
  }

  ghost predicate ReadsSlot(row: (seq<int>, int), log: seq<Record>, s: nat) {
    s < |log| && row == (log[s].features, log[s].outcome)
  }

  lemma {:induction false} ExportReadsSlots(ix: Index, log: seq<Record>, onlyLabeled: bool)
    requires forall e :: e in ix ==> e.slot < |log|
    ensures var rows, ss := Exported(ix, log, onlyLabeled), ExportedSlots(ix, log, onlyLabeled);
            && |rows| == |ss|
            && (forall i :: 0 <= i < |ss| ==> ReadsSlot(rows[i], log, ss[i]))
            && (forall s: nat :: s in ss <==> Holds(ix, s) && (onlyLabeled ==> log[s].labeled))
    decreases |ix|
  {
    if ix != [] {
      var n := |ix| - 1;
      ExportReadsSlots(ix[..n], log, onlyLabeled);
      forall s: nat
        ensures Holds(ix, s) <==> Holds(ix[..n], s) || s == ix[n].slot
      {
        assert forall i :: 0 <= i < n ==> ix[..n][i] == ix[i];
      }
    }
  }

  ghost predicate Holds(ix: Index, s: nat) {
    exists i :: 0 <= i < |ix| && ix[i].slot == s
  }

  lemma {:induction false} ExportsNothingTwice(ix: Index, log: seq<Record>, onlyLabeled: bool)
    requires forall e :: e in ix ==> e.slot < |log|
    requires forall i, j :: 0 <= i < j < |ix| ==> ix[i].slot != ix[j].slot
    ensures var ss := ExportedSlots(ix, log, onlyLabeled); forall i, j :: 0 <= i < j < |ss| ==> ss[i] != ss[j]
    decreases |ix|
  {
    if ix != [] {
      var n := |ix| - 1;
      ExportsNothingTwice(ix[..n], log, onlyLabeled);
      ExportReadsSlots(ix[..n], log, onlyLabeled);
    }
  }

  /**
   An export holds the features and outcome of exactly the newest record of every id, with the flag of those
   among them that are labelled, and each of them once.
   */
  lemma {:induction false} ExportHoldsExactlyTheLatest(log: seq<Record>, onlyLabeled: bool) returns (ss: seq<nat>)
    ensures IndexSound(IndexOf(log), log)
    ensures forall s: nat :: s in ss <==> Latest(log, s) && (onlyLabeled ==> log[s].labeled)
    ensures forall i, j :: 0 <= i < j < |ss| ==> ss[i] != ss[j]
    ensures var rows := Exported(IndexOf(log), log, onlyLabeled);
            |rows| == |ss| && forall i :: 0 <= i < |ss| ==> ReadsSlot(rows[i], log, ss[i])
  {
    var ix := IndexOf(log);
    IndexHoldsTheLatest(log);
    ss := ExportedSlots(ix, log, onlyLabeled);
    ExportReadsSlots(ix, log, onlyLabeled);
    forall i, j | 0 <= i < j < |ix|
      ensures ix[i].slot != ix[j].slot
    {
      assert ix[i] in ix && ix[j] in ix;
    }
    ExportsNothingTwice(ix, log, onlyLabeled);
    forall s: nat
      ensures Holds(ix, s) <==> Latest(log, s)
    {
      if Latest(log, s) {
        assert Entry(log[s].id, s) in ix;
      }
      if Holds(ix, s) {
        var i :| 0 <= i < |ix| && ix[i].slot == s;
        assert ix[i] in ix;
      }
    }
  }

  /** Compaction keeps every indexed record that is not labelled, unchanged, and nothing that is labelled. */
  lemma {:induction false} CompactionKeepsExactlyTheUnlabeled(log: seq<Record>)
    ensures IndexSound(IndexOf(log), log)
    ensures forall r :: r in Compacted(log) ==> !r.labeled && exists e :: e in IndexOf(log) && log[e.slot] == r
    ensures forall e :: e in IndexOf(log) && e.slot < |log| && !log[e.slot].labeled ==> log[e.slot] in Compacted(log)
  {
    IndexIsSound(log);
    UnlabeledSlots(IndexOf(log), log);
    if |Unlabeled(IndexOf(log), log)| == |log| {
      AllSlotsKept(log, Unlabeled(IndexOf(log), log));
    }
    forall e | e in IndexOf(log) && !log[e.slot].labeled
      ensures log[e.slot] in Compacted(log)
    {
      KeptIsPicked(log, e.slot);
    }
    forall r | r in Compacted(log)
      ensures !r.labeled && exists e :: e in IndexOf(log) && log[e.slot] == r
    {
      var k :| 0 <= k < |Compacted(log)| && Compacted(log)[k] == r;
      PickedIsKept(log, k);
    }
  }

  lemma {:induction false} KeptIsPicked(log: seq<Record>, slot: nat)
    requires IndexSound(IndexOf(log), log) && slot in Unlabeled(IndexOf(log), log)
    ensures slot < |log| && log[slot] in Compacted(log)
  {
    var i :| 0 <= i < |Unlabeled(IndexOf(log), log)| && Unlabeled(IndexOf(log), log)[i] == slot;
    if |Unlabeled(IndexOf(log), log)| != |log| {
      assert Pick(log, Unlabeled(IndexOf(log), log))[i] == log[slot];
    }
  }

  lemma {:induction false} PickedIsKept(log: seq<Record>, k: nat)
    requires IndexSound(IndexOf(log), log) && k < |Compacted(log)|
    requires |Unlabeled(IndexOf(log), log)| == |log| ==>
        forall j :: 0 <= j < |log| ==> j in Unlabeled(IndexOf(log), log)
    ensures exists s :: s in Unlabeled(IndexOf(log), log) && log[s] == Compacted(log)[k]
  {
    if |Unlabeled(IndexOf(log), log)| == |log| {
      assert k in Unlabeled(IndexOf(log), log);
    } else {
      assert Unlabeled(IndexOf(log), log)[k] in Unlabeled(IndexOf(log), log);
    }
  }

  /* As many kept slots as records, with different ids, are all the slots. */
  lemma {:induction false} AllSlotsKept(log: seq<Record>, ss: seq<nat>)
    requires |ss| == |log| && forall i :: 0 <= i < |ss| ==> ss[i] < |log|
    requires forall i, j :: 0 <= i < j < |ss| ==> log[ss[i]].id != log[ss[j]].id
    ensures forall k :: 0 <= k < |log| ==> k in ss
  {
    assert forall i, j :: 0 <= i < j < |ss| ==> ss[i] != ss[j];
    forall k | 0 <= k < |log|
      ensures k in ss
    {
      if k !in ss {
        SubsetSize(Elements(ss), Below(|log|) - {k});
        assert false;
      }
    }
  }

  ghost function Elements(ss: seq<nat>): (e: set<nat>)
    requires forall i, j :: 0 <= i < j < |ss| ==> ss[i] != ss[j]
    ensures forall k :: k in e <==> k in ss
    ensures |e| == |ss|
  {
    if ss == [] then {}
    else
      assert forall k :: k in ss <==> k == ss[0] || k in ss[1..];
      Elements(ss[1..]) + {ss[0]}
  }

  ghost function Below(n: nat): (e: set<nat>)
    ensures forall k :: k in e <==> 0 <= k < n
    ensures |e| == n
  {
    if n == 0 then {} else Below(n - 1) + {n - 1}
  }

  lemma {:induction false} SubsetSize(a: set<nat>, b: set<nat>)
    requires a <= b
    ensures |a| <= |b|
    decreases a
  {
    if a != {} {
      var x :| x in a;
      SubsetSize(a - {x}, b - {x});
    }
  }

  lemma {:induction false} SlotAfterAppend(log: seq<Record>, r: Record)
    ensures SlotOf(log + [r], r.id) == Some(|log|)
  {
    IndexIsSound(log);
    var ix := IndexOf(log);
    assert (log + [r])[..|log|] == log;
    var n := Put(ix, r.id, |log|);
    var p := Find(n, r.id);
    PutFinds(ix, r.id, |log|, r.id);
    assert n[p.value].id == r.id;
    var q := Find(ix, r.id);
    assert p.value == if q.Some? then q.value else |ix|;
  }

  /* What a record that is appended and labelled, in either order, looks like. */
  lemma {:induction false} AppendThenStitch(w: Wal, id: int, ts: int, features: seq<int>, l: LabelData)
    requires Packable(l)
    ensures var last := Appended(w, id, ts, features);
            && IndexSound(IndexOf(last.log), last.log)
            && Stitched(last, id, l)
                 == Wal(w.log + [Relabel(Record(id, ts, features, 0, 0, 0, false), l)], w.pending - {id})
  {
    var r := Record(id, ts, features, 0, 0, 0, false);
    var last := Appended(w, id, ts, features);
    IndexIsSound(last.log);
    SlotAfterAppend(w.log, r);
    IndexIgnoresLabels(last.log, w.log + [r]);
    assert SlotOf(last.log, id) == Some(|w.log|);
    var x := last.log[|w.log|];
    assert last.log == w.log + [x] && Relabel(x, l) == Relabel(r, l);
    assert last.pending == w.pending - {id};
    LastReplaced(w.log, x, Relabel(r, l));
    assert Stitched(last, id, l) == Wal((w.log + [x])[|w.log| := Relabel(r, l)], last.pending);
  }

  lemma {:induction false} LastReplaced(log: seq<Record>, x: Record, y: Record)
    ensures (log + [x])[|log| := y] == log + [y]
  {
  }

  lemma {:induction false} StitchThenAppend(w: Wal, id: int, ts: int, features: seq<int>, l: LabelData)
    requires Packable(l) && SlotOf(w.log, id).None?
    ensures IndexSound(IndexOf(w.log), w.log)
    ensures Appended(Stitched(w, id, l), id, ts, features)
         == Wal(w.log + [Relabel(Record(id, ts, features, 0, 0, 0, false), l)], w.pending - {id})
  {
    IndexIsSound(w.log);
    assert w.pending[id := l] - {id} == w.pending - {id};
  }

  /* With an earlier record, that one gets the label and the appended one stays bare. */
  lemma {:induction false} StitchHitsOldRecord(w: Wal, id: int, ts: int, features: seq<int>, l: LabelData)
    requires Packable(l) && SlotOf(w.log, id).Some? && id !in w.pending
    ensures IndexSound(IndexOf(w.log), w.log)
    ensures var first := Appended(Stitched(w, id, l), id, ts, features);
            |first.log| == |w.log| + 1 && !first.log[|w.log|].labeled
  {
    IndexIsSound(w.log);
  }

  /* A label that cannot be packed is never written, in either order; it only displaces one that waits. */
  lemma {:induction false} UnpackableLabel(w: Wal, id: int, ts: int, features: seq<int>, l: LabelData)
    requires Waiting(w) && !Packable(l)
    ensures IndexSound(IndexOf(w.log), w.log)
    ensures IndexSound(IndexOf(Appended(w, id, ts, features).log), Appended(w, id, ts, features).log)
    ensures Appended(Stitched(w, id, l), id, ts, features) == Stitched(Appended(w, id, ts, features), id, l)
            <==> !(id in w.pending && Packable(w.pending[id]))
  {
    IndexIsSound(w.log);
    IndexIsSound(Appended(w, id, ts, features).log);
    NoSlotMeansNoRecord(w.log, id);
    NothingToStitch(w, id, ts, features, l);
    if SlotOf(w.log, id).None? {
      QueuedAndLost(w, id, ts, features, l);
    }
  }

  lemma {:induction false} NothingToStitch(w: Wal, id: int, ts: int, features: seq<int>, l: LabelData)
    requires !Packable(l)
    ensures IndexSound(IndexOf(Appended(w, id, ts, features).log), Appended(w, id, ts, features).log)
    ensures Stitched(Appended(w, id, ts, features), id, l) == Appended(w, id, ts, features)
  {
    var last := Appended(w, id, ts, features);
    IndexIsSound(last.log);
    NoSlotMeansNoRecord(last.log, id);
    assert last.log[|w.log|].id == id;
  }

  lemma {:induction false} QueuedAndLost(w: Wal, id: int, ts: int, features: seq<int>, l: LabelData)
    requires !Packable(l) && SlotOf(w.log, id).None?
    ensures IndexSound(IndexOf(w.log), w.log)
    ensures Appended(Stitched(w, id, l), id, ts, features) == Appended(w, id, ts, features)
            <==> !(id in w.pending && Packable(w.pending[id]))
  {
    var bare := Record(id, ts, features, 0, 0, 0, false);
    IndexIsSound(w.log);
    assert w.pending[id := l] - {id} == w.pending - {id};
    assert id !in w.pending ==> w.pending - {id} == w.pending;
    if id in w.pending && Packable(w.pending[id]) {
      assert Appended(w, id, ts, features).log[|w.log|].labeled && !(w.log + [bare])[|w.log|].labeled;
    }
  }

  /**
   In any store that can be reached, a label that arrives before its features ends in the same log as one
   that arrives after them, exactly when the id has no earlier record; a label that cannot be packed,
   exactly when it does not displace one that can.
   */
  lemma {:induction false} StitchCommutesWithAppend(w: Wal, id: int, ts: int, features: seq<int>, l: LabelData)
    requires Waiting(w)
    ensures IndexSound(IndexOf(w.log), w.log)
    ensures IndexSound(IndexOf(Appended(w, id, ts, features).log), Appended(w, id, ts, features).log)
    ensures Appended(Stitched(w, id, l), id, ts, features) == Stitched(Appended(w, id, ts, features), id, l)
            <==> if Packable(l) then SlotOf(w.log, id).None? else !(id in w.pending && Packable(w.pending[id]))
  {
    IndexIsSound(w.log);
    if Packable(l) {
      AppendThenStitch(w, id, ts, features, l);
      if SlotOf(w.log, id).None? {
        StitchThenAppend(w, id, ts, features, l);
      } else {
        NoSlotMeansNoRecord(w.log, id);
        StitchHitsOldRecord(w, id, ts, features, l);
        assert (w.log + [Relabel(Record(id, ts, features, 0, 0, 0, false), l)])[|w.log|].labeled;
      }
    } else {
      UnpackableLabel(w, id, ts, features, l);
    }
  }
}

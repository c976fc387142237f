/** The index of objects mapped into PDOs, built once from the mapping records of the
    dictionary, against the scan of those records that it replaces
    (canopen_base_driver/include/canopen_base_driver/lely_driver_bridge.hpp). */
module PdoIndex {
  import opened Wrappers

  const RPDO_RECORDS := 0x1600
  const TPDO_RECORDS := 0x1A00

  datatype Mapping = Mapping(isTpdo: bool, isRpdo: bool)

  const RPDO := Mapping(false, true)
  const TPDO := Mapping(true, false)

  type Index = map<int, map<int, Mapping>>

  function Get(index: Index, idx: int, sub: int): Option<Mapping> {
    if idx in index && sub in index[idx] then Some(index[idx][sub]) else None
  }

  function Put(index: Index, idx: int, sub: int, m: Mapping): Index {
    index[idx := (if idx in index then index[idx] else map[])[sub := m]]
  }

  lemma PutGet(index: Index, idx: int, sub: int, m: Mapping, i: int, s: int)
    ensures Get(Put(index, idx, sub, m), i, s) == if i == idx && s == sub then Some(m) else Get(index, i, s)
  {
  }

  /** The object that a 32-bit mapping entry names: bits 16 to 31 its index, bits 8 to 15 its sub-index. */
  function MappedSub(data: nat): int { data / 0x100 % 0x100 }

  function MappedIndex(data: nat): int { data / 0x1_0000 % 0x1_0000 }

  /** The values of the dictionary's objects. */
  type Objects = map<(int, int), nat>

  function Find(d: Objects, idx: int, sub: int): Option<nat> {
    if (idx, sub) in d then Some(d[(idx, sub)]) else None
  }

  /** Entry s of the i-th mapping record from `base` on names the object. */
  predicate Names(d: Objects, base: int, i: int, s: int, idx: int, sub: int) {
    var e := Find(d, base + i, s);
    e.Some? && MappedIndex(e.value) == idx && MappedSub(e.value) == sub
  }

  /** Some entry of the 256 records from `base` on names the object. */
  ghost predicate Mapped(d: Objects, base: int, idx: int, sub: int) {
    exists i, s :: 0 <= i < 256 && 1 <= s < 9 && Names(d, base, i, s, idx, sub)
  }

  /** The same for the entries before entry `upto` of record `records`. */
  ghost predicate MappedBefore(d: Objects, base: int, records: int, upto: int, idx: int, sub: int) {
    exists i, s :: 0 <= i < 256 && 1 <= s < 9 && (i < records || (i == records && s < upto)) &&
                   Names(d, base, i, s, idx, sub)
  }

  /** What the fetch loop has marked: the objects named so far, except that index zero means
      an unused entry. */
  ghost predicate Fetched(d: Objects, base: int, records: int, upto: int, m: Mapping, before: Index, index: Index) {
    forall idx, sub :: Get(index, idx, sub) ==
      if idx != 0 && MappedBefore(d, base, records, upto, idx, sub) then Some(m) else Get(before, idx, sub)
  }

  lemma NextEntry(d: Objects, base: int, i: int, s: int, idx: int, sub: int)
    requires 0 <= i < 256 && 1 <= s < 9
    ensures MappedBefore(d, base, i, s + 1, idx, sub) <==>
            MappedBefore(d, base, i, s, idx, sub) || Names(d, base, i, s, idx, sub)
  {
  }

  lemma FetchEntry(d: Objects, base: int, i: int, s: int, m: Mapping, before: Index, index: Index)
    requires 0 <= i < 256 && 1 <= s < 9 && Fetched(d, base, i, s, m, before, index)
    ensures var e := Find(d, base + i, s);
            Fetched(d, base, i, s + 1, m, before,
                    if e.Some? && MappedIndex(e.value) != 0
                    then Put(index, MappedIndex(e.value), MappedSub(e.value), m) else index)
  {
    var e := Find(d, base + i, s);
    var index' := if e.Some? && MappedIndex(e.value) != 0
                  then Put(index, MappedIndex(e.value), MappedSub(e.value), m) else index;
    forall idx, sub
      ensures Get(index', idx, sub) ==
              if idx != 0 && MappedBefore(d, base, i, s + 1, idx, sub) then Some(m) else Get(before, idx, sub)
    {
      NextEntry(d, base, i, s, idx, sub);
      assert Get(index, idx, sub) ==
             if idx != 0 && MappedBefore(d, base, i, s, idx, sub) then Some(m) else Get(before, idx, sub);
      if e.Some? {
        PutGet(index, MappedIndex(e.value), MappedSub(e.value), m, idx, sub);
      }
    }
  }

  lemma FetchRecord(d: Objects, base: int, i: int, m: Mapping, before: Index, index: Index)
    requires Fetched(d, base, i, 9, m, before, index)
    ensures Fetched(d, base, i + 1, 1, m, before, index)
  {
  }

  class PdoMap {
    var index: Index

    constructor ()
      ensures index == map[]
    {
      index := map[];
    }
  }

  class DriverDictionary {
    const objects: Objects

    constructor (objects: Objects)
      ensures this.objects == objects
    {
      this.objects := objects;
    }

    method FetchRpdo(pdos: PdoMap)
      modifies pdos
      ensures forall idx, sub :: Get(pdos.index, idx, sub) ==
                if idx != 0 && Mapped(objects, RPDO_RECORDS, idx, sub) then Some(RPDO)
                else Get(old(pdos.index), idx, sub)
    {
      Fetch(RPDO_RECORDS, RPDO, pdos);
    }

    method FetchTpdo(pdos: PdoMap)
      modifies pdos
      ensures forall idx, sub :: Get(pdos.index, idx, sub) ==
                if idx != 0 && Mapped(objects, TPDO_RECORDS, idx, sub) then Some(TPDO)
                else Get(old(pdos.index), idx, sub)
    {
      Fetch(TPDO_RECORDS, TPDO, pdos);
    }

    /** The loops that fetchRPDO and fetchTPDO share. */
    method Fetch(base: int, m: Mapping, pdos: PdoMap)
      modifies pdos
      ensures forall idx, sub :: Get(pdos.index, idx, sub) ==
                if idx != 0 && Mapped(objects, base, idx, sub) then Some(m) else Get(old(pdos.index), idx, sub)
    {
      ghost var before := pdos.index;
      for i := 0 to 256
        invariant Fetched(objects, base, i, 1, m, before, pdos.index)
      {
        for s := 1 to 9
          invariant Fetched(objects, base, i, s, m, before, pdos.index)
        {
          FetchEntry(objects, base, i, s, m, before, pdos.index);
          var e := Find(objects, base + i, s);
          if e.Some? && MappedIndex(e.value) != 0 {
            pdos.index := Put(pdos.index, MappedIndex(e.value), MappedSub(e.value), m);
          }
        }
        FetchRecord(objects, base, i, m, before, pdos.index);
      }
      forall idx, sub
        ensures MappedBefore(objects, base, 256, 1, idx, sub) <==> Mapped(objects, base, idx, sub)
      {
      }
    }

    /** TPDOs are fetched last, so an object mapped both ways counts as a TPDO. */
    method CreatePdoMapping() returns (pdos: PdoMap)
      ensures fresh(pdos) && IndexOf(objects, pdos.index)
    {
      pdos := new PdoMap();
      FetchRpdo(pdos);
      FetchTpdo(pdos);
    }

    method CheckObjInPdo(pdo: int, base: int, idx: int, sub: int) returns (found: bool)
      ensures found == ScanFinds(objects, base, pdo, idx, sub)
    {
      for s := 1 to 9
        invariant Unbroken(objects, base + pdo, s)
        invariant forall t :: 1 <= t < s ==> !Names(objects, base, pdo, t, idx, sub)
      {
        var e := Find(objects, base + pdo, s);
        if e == None {
          return false;
        }
        if MappedSub(e.value) == sub && MappedIndex(e.value) == idx {
          assert Names(objects, base, pdo, s, idx, sub);
          return true;
        }
      }
      found := false;
    }

    /** checkObjRPDO and checkObjTPDO, for their first record. */
    method CheckObj(base: int, idx: int, sub: int) returns (found: bool)
      ensures found <==> Scanned(objects, base, idx, sub)
    {
      for i := 0 to 256
        invariant forall j :: 0 <= j < i ==> !ScanFinds(objects, base, j, idx, sub)
      {
        var here := CheckObjInPdo(i, base, idx, sub);
        if here {
          return true;
        }
      }
      found := false;
    }
  }

  /** Entries 1 to s - 1 of the record exist. */
  predicate Unbroken(d: Objects, record: int, s: int) {
    forall t :: 1 <= t < s ==> Find(d, record, t).Some?
  }

  /** The scan of one record stops at the first missing entry. */
  predicate ScanFinds(d: Objects, base: int, i: int, idx: int, sub: int) {
    exists s :: 1 <= s < 9 && Unbroken(d, base + i, s) && Names(d, base, i, s, idx, sub)
  }

  predicate Scanned(d: Objects, base: int, idx: int, sub: int) {
    exists i :: 0 <= i < 256 && ScanFinds(d, base, i, idx, sub)
  }

  /** What createPDOMapping owes: each object with a nonzero index is marked TPDO just when
      some TPDO record maps it, RPDO just when only RPDO records do, and nothing else is marked. */
  ghost predicate IndexOf(d: Objects, index: Index) {
    forall idx, sub ::
      && (Get(index, idx, sub) == Some(TPDO) <==> idx != 0 && Mapped(d, TPDO_RECORDS, idx, sub))
      && (Get(index, idx, sub) == Some(RPDO) <==>
            idx != 0 && Mapped(d, RPDO_RECORDS, idx, sub) && !Mapped(d, TPDO_RECORDS, idx, sub))
      && (Get(index, idx, sub) == None || Get(index, idx, sub) == Some(TPDO) || Get(index, idx, sub) == Some(RPDO))
  }

  // ----- What the entries name -----

  /** Entry s of the i-th record from `base` on is the 32-bit word of an object and a bit length. */
  predicate EntryIs(d: Objects, base: int, i: int, s: int, idx: int, sub: int, length: int) {
    (base + i, s) in d && d[(base + i, s)] == idx * 0x1_0000 + sub * 0x100 + length
  }

  lemma EntryParts(v: nat, idx: int, sub: int)
    requires v < 0x1_0000_0000 && 0 <= idx < 0x1_0000 && 0 <= sub < 0x100
    ensures MappedIndex(v) == idx && MappedSub(v) == sub <==>
            0 <= v - idx * 0x1_0000 - sub * 0x100 < 0x100
  {
  }

  /** The dictionary holds 32-bit values. */
  predicate Words(d: Objects) {
    forall at <- d :: d[at] < 0x1_0000_0000
  }

  /** An object is mapped just when one of the entries 1 to 8 of the 256 records from 0x1600 on,
      for received data, or from 0x1A00 on, for transmitted data, is its index, its sub-index and some
      length, put together. */
  lemma MappedMeaning(d: Objects, idx: int, sub: int)
    requires Words(d) && 0 <= idx < 0x1_0000 && 0 <= sub < 0x100
    ensures Mapped(d, RPDO_RECORDS, idx, sub) <==>
            exists i, s, n :: 0 <= i < 256 && 1 <= s <= 8 && 0 <= n < 256 && EntryIs(d, 0x1600, i, s, idx, sub, n)
    ensures Mapped(d, TPDO_RECORDS, idx, sub) <==>
            exists i, s, n :: 0 <= i < 256 && 1 <= s <= 8 && 0 <= n < 256 && EntryIs(d, 0x1A00, i, s, idx, sub, n)
  {
    MappedFrom(d, 0x1600, idx, sub);
    MappedFrom(d, 0x1A00, idx, sub);
  }

  lemma MappedFrom(d: Objects, base: int, idx: int, sub: int)
    requires Words(d) && 0 <= idx < 0x1_0000 && 0 <= sub < 0x100
    ensures Mapped(d, base, idx, sub) <==>
            exists i, s, n :: 0 <= i < 256 && 1 <= s <= 8 && 0 <= n < 256 && EntryIs(d, base, i, s, idx, sub, n)
  {
    hide MappedIndex, MappedSub;
    if Mapped(d, base, idx, sub) {
      var i, s :| 0 <= i < 256 && 1 <= s < 9 && Names(d, base, i, s, idx, sub);
      var v := d[(base + i, s)];
      EntryParts(v, idx, sub);
      assert EntryIs(d, base, i, s, idx, sub, v - idx * 0x1_0000 - sub * 0x100);
    }
    if i, s, n :| 0 <= i < 256 && 1 <= s <= 8 && 0 <= n < 256 && EntryIs(d, base, i, s, idx, sub, n) {
      EntryParts(d[(base + i, s)], idx, sub);
      assert Names(d, base, i, s, idx, sub);
    }
  }

  // ----- The index against the scan -----

  /** Some entry names the object, and each that does has a missing entry before it in its record. */
  ghost predicate Hidden(d: Objects, base: int, idx: int, sub: int) {
    && Mapped(d, base, idx, sub)
    && forall i, s :: 0 <= i < 256 && 1 <= s < 9 && Names(d, base, i, s, idx, sub) ==> !Unbroken(d, base + i, s)
  }

  ghost predicate NoGaps(d: Objects, base: int) {
    forall record, s :: base <= record < base + 256 && 1 <= s < 9 && Find(d, record, s).Some? ==> Unbroken(d, record, s)
  }

  lemma ScanFindsUnhidden(d: Objects, base: int, idx: int, sub: int)
    ensures Scanned(d, base, idx, sub) <==> Mapped(d, base, idx, sub) && !Hidden(d, base, idx, sub)
  {
    if Scanned(d, base, idx, sub) {
      var i :| 0 <= i < 256 && ScanFinds(d, base, i, idx, sub);
      var s :| 1 <= s < 9 && Unbroken(d, base + i, s) && Names(d, base, i, s, idx, sub);
    }
    if Mapped(d, base, idx, sub) && !Hidden(d, base, idx, sub) {
      var i, s :| 0 <= i < 256 && 1 <= s < 9 && Names(d, base, i, s, idx, sub) && Unbroken(d, base + i, s);
      assert ScanFinds(d, base, i, idx, sub);
    }
  }

  /** For every dictionary and object with a nonzero index, the index and the scan agree
      except for entries that a gap in their record hides from the scan. */
  lemma IndexAgreesExactly(d: Objects, index: Index, idx: int, sub: int)
    requires IndexOf(d, index) && idx != 0
    ensures (Get(index, idx, sub) == Some(TPDO) <==> Scanned(d, TPDO_RECORDS, idx, sub)) <==>
            !Hidden(d, TPDO_RECORDS, idx, sub)
    ensures (Get(index, idx, sub) == Some(RPDO) <==>
               Scanned(d, RPDO_RECORDS, idx, sub) && !Scanned(d, TPDO_RECORDS, idx, sub)) <==>
            && !(Hidden(d, TPDO_RECORDS, idx, sub) && Scanned(d, RPDO_RECORDS, idx, sub))
            && !(Hidden(d, RPDO_RECORDS, idx, sub) && !Mapped(d, TPDO_RECORDS, idx, sub))
  {
    hide Mapped, Hidden, Scanned;
    ScanFindsUnhidden(d, TPDO_RECORDS, idx, sub);
    ScanFindsUnhidden(d, RPDO_RECORDS, idx, sub);
    HiddenIsMapped(d, TPDO_RECORDS, idx, sub);
    HiddenIsMapped(d, RPDO_RECORDS, idx, sub);
  }

  lemma HiddenIsMapped(d: Objects, base: int, idx: int, sub: int)
    ensures Hidden(d, base, idx, sub) ==> Mapped(d, base, idx, sub)
  {
  }

  /** Where no mapping record has a gap the index is the scan, for every object at once. */
  lemma IndexReplacesScan(d: Objects, index: Index)
    requires IndexOf(d, index) && NoGaps(d, RPDO_RECORDS) && NoGaps(d, TPDO_RECORDS)
    ensures forall idx, sub :: idx != 0 ==>
              && (Get(index, idx, sub) == Some(TPDO) <==> Scanned(d, TPDO_RECORDS, idx, sub))
              && (Get(index, idx, sub) == Some(RPDO) <==>
                    Scanned(d, RPDO_RECORDS, idx, sub) && !Scanned(d, TPDO_RECORDS, idx, sub))
  {
    forall idx, sub | idx != 0
      ensures Get(index, idx, sub) == Some(TPDO) <==> Scanned(d, TPDO_RECORDS, idx, sub)
      ensures Get(index, idx, sub) == Some(RPDO) <==>
              Scanned(d, RPDO_RECORDS, idx, sub) && !Scanned(d, TPDO_RECORDS, idx, sub)
    {
      IndexAgreesExactly(d, index, idx, sub);
    }
  }

  /** With a gap they differ: sub-index 2 of the first transmit record maps the status word,
      sub-index 1 is missing. */
  lemma GapsHide()
    ensures var d: Objects := map[(0x1A00, 2) := 0x6041_0010];
            Mapped(d, TPDO_RECORDS, 0x6041, 0) && !Scanned(d, TPDO_RECORDS, 0x6041, 0)
  {
    var d: Objects := map[(0x1A00, 2) := 0x6041_0010];
    assert Names(d, TPDO_RECORDS, 0, 2, 0x6041, 0);
    assert Find(d, 0x1A00, 1) == None;
  }
}

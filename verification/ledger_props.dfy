/** Properties of the chaincode transactions that relate several calls or a whole loop:
    all-or-nothing unit creation and batch transfer, what each touches, idempotent
    registration, and the invariants every transaction keeps. */
module LedgerProperties {
  import opened Wrappers
  import opened Text
  import opened Ledger

  // ---------------------------------------------------------------------------------------
  // Keys

  /** A unit key has two more dashes than its medication id, a counter key none more; so the
      counter of a medication never shares a key with one of its units. */
  lemma {:induction false} CounterKeyNotUnitKey(medId: string, charge: string, n: nat)
    ensures CounterKey(medId) != UnitKey(medId, charge, n)
  {
    CountCharAbsent(UnitCounterPrefix, '-');
    CountCharAbsent(PadZeros(n, 4), '-');
    CountCharAppend(UnitCounterPrefix, medId, '-');
    CountCharAppend(medId, "-", '-');
    CountCharAppend(medId + "-", charge, '-');
    CountCharAppend(medId + "-" + charge, "-", '-');
    CountCharAppend(medId + "-" + charge + "-", PadZeros(n, 4), '-');
    assert CountChar("-", '-') == 1 by {
      assert "-"[..0] == [];
    }
  }

  /** Distinct numbers give distinct keys. */
  ghost predicate Injective(keyOf: nat -> string) {
    forall a: nat, b: nat :: keyOf(a) == keyOf(b) ==> a == b
  }

  /** The unit keys of one charge are injective in the unit number. */
  lemma ChargeKeysInjective(medId: string, charge: string)
    ensures Injective(ChargeKeys(medId, charge))
  {
    forall a: nat, b: nat | ChargeKeys(medId, charge)(a) == ChargeKeys(medId, charge)(b) ensures a == b {
      UnitKeyInjective(medId, charge, a, b);
    }
  }

  lemma ChargeKeysAre(medId: string, charge: string)
    ensures forall n: nat :: ChargeKeys(medId, charge)(n) == UnitKey(medId, charge, n)
  {
  }

  // ---------------------------------------------------------------------------------------
  // createUnits: the minting loop

  /** Minting never alters or removes a key that was already there. */
  lemma {:induction false} MintUnitsKeepsExisting(st: WorldState, keyOf: nat -> string, medId: string, charge: string, ipfsLink: string,
                                                  owner: string, counter: nat, remaining: nat)
    requires MintUnits(st, keyOf, medId, charge, ipfsLink, owner, counter, remaining).Success?
    ensures var m := MintUnits(st, keyOf, medId, charge, ipfsLink, owner, counter, remaining).value;
      forall key :: key in st ==> key in m.state && m.state[key] == st[key]
    decreases remaining
  {
    if remaining > 0 {
      var key := keyOf(counter + 1);
      var st1 := st[key := UnitRecord(NewUnit(key, medId, charge, ipfsLink, owner))];
      MintUnitsKeepsExisting(st1, keyOf, medId, charge, ipfsLink, owner, counter + 1, remaining - 1);
    }
  }

  /** Every number after the counter, up to the number of iterations, gets a fresh unit. */
  lemma {:induction false} MintUnitsCreates(st: WorldState, keyOf: nat -> string, medId: string, charge: string, ipfsLink: string,
                                            owner: string, counter: nat, remaining: nat)
    requires Injective(keyOf)
    requires MintUnits(st, keyOf, medId, charge, ipfsLink, owner, counter, remaining).Success?
    ensures var m := MintUnits(st, keyOf, medId, charge, ipfsLink, owner, counter, remaining).value;
      forall n :: counter < n <= counter + remaining ==>
        var key := keyOf(n);
        key !in st && key in m.state
        && m.state[key] == UnitRecord(NewUnit(key, medId, charge, ipfsLink, owner))
    decreases remaining
  {
    if remaining > 0 {
      var key := keyOf(counter + 1);
      var st1 := st[key := UnitRecord(NewUnit(key, medId, charge, ipfsLink, owner))];
      MintUnitsKeepsExisting(st1, keyOf, medId, charge, ipfsLink, owner, counter + 1, remaining - 1);
      MintUnitsCreates(st1, keyOf, medId, charge, ipfsLink, owner, counter + 1, remaining - 1);
    }
  }

  /** One iteration of the minting loop: the unit numbered `counter + 1` comes first, then
      what the rest of the loop mints. */
  lemma MintUnitsStep(st: WorldState, keyOf: nat -> string, medId: string, charge: string, ipfsLink: string,
                      owner: string, counter: nat, remaining: nat)
    requires remaining > 0
    requires MintUnits(st, keyOf, medId, charge, ipfsLink, owner, counter, remaining).Success?
    ensures var key := keyOf(counter + 1);
      var unit := NewUnit(key, medId, charge, ipfsLink, owner);
      var rest := MintUnits(st[key := UnitRecord(unit)], keyOf, medId, charge, ipfsLink, owner, counter + 1, remaining - 1);
      var m := MintUnits(st, keyOf, medId, charge, ipfsLink, owner, counter, remaining).value;
      rest.Success? && m.units == [unit] + rest.value.units
      && m.events == [Event("Unit", key, "CREATED")] + rest.value.events
  {
  }

  /** The minted units are returned and announced in number order. */
  lemma {:induction false} MintUnitsYields(st: WorldState, keyOf: nat -> string, medId: string, charge: string, ipfsLink: string,
                                           owner: string, counter: nat, remaining: nat)
    requires MintUnits(st, keyOf, medId, charge, ipfsLink, owner, counter, remaining).Success?
    ensures var m := MintUnits(st, keyOf, medId, charge, ipfsLink, owner, counter, remaining).value;
      forall j :: 0 <= j < remaining ==>
        m.units[j] == NewUnit(keyOf(counter + 1 + j), medId, charge, ipfsLink, owner)
        && m.events[j] == Event("Unit", keyOf(counter + 1 + j), "CREATED")
    decreases remaining
  {
    if remaining > 0 {
      var key := keyOf(counter + 1);
      var unit := NewUnit(key, medId, charge, ipfsLink, owner);
      var st1 := st[key := UnitRecord(unit)];
      var m := MintUnits(st, keyOf, medId, charge, ipfsLink, owner, counter, remaining).value;
      var rest := MintUnits(st1, keyOf, medId, charge, ipfsLink, owner, counter + 1, remaining - 1).value;
      MintUnitsStep(st, keyOf, medId, charge, ipfsLink, owner, counter, remaining);
      MintUnitsYields(st1, keyOf, medId, charge, ipfsLink, owner, counter + 1, remaining - 1);
      forall j | 1 <= j < remaining
        ensures m.units[j] == rest.units[j - 1] && m.events[j] == rest.events[j - 1]
        ensures counter + 1 + j == (counter + 1) + 1 + (j - 1)
      {
      }
    }
  }

  /** Everything minting adds is a unit key in the minted range. */
  lemma {:induction false} MintUnitsOnlyNew(st: WorldState, keyOf: nat -> string, medId: string, charge: string, ipfsLink: string,
                                            owner: string, counter: nat, remaining: nat)
    requires MintUnits(st, keyOf, medId, charge, ipfsLink, owner, counter, remaining).Success?
    ensures var m := MintUnits(st, keyOf, medId, charge, ipfsLink, owner, counter, remaining).value;
      forall key :: key in m.state && key !in st ==>
        exists n :: counter < n <= counter + remaining && key == keyOf(n)
    decreases remaining
  {
    if remaining > 0 {
      var key := keyOf(counter + 1);
      var st1 := st[key := UnitRecord(NewUnit(key, medId, charge, ipfsLink, owner))];
      MintUnitsOnlyNew(st1, keyOf, medId, charge, ipfsLink, owner, counter + 1, remaining - 1);
    }
  }

  /** Minting succeeds exactly when none of the numbers it will use is taken. */
  lemma {:induction false} MintUnitsSucceedsIffFree(st: WorldState, keyOf: nat -> string, medId: string, charge: string, ipfsLink: string,
                                                    owner: string, counter: nat, remaining: nat)
    requires Injective(keyOf)
    ensures MintUnits(st, keyOf, medId, charge, ipfsLink, owner, counter, remaining).Success?
      <==> forall n :: counter < n <= counter + remaining ==> keyOf(n) !in st
    decreases remaining
  {
    if remaining > 0 {
      var key := keyOf(counter + 1);
      var st1 := st[key := UnitRecord(NewUnit(key, medId, charge, ipfsLink, owner))];
      MintUnitsSucceedsIffFree(st1, keyOf, medId, charge, ipfsLink, owner, counter + 1, remaining - 1);
      forall n | counter + 1 < n <= counter + remaining
        ensures keyOf(n) in st1 <==> keyOf(n) in st
      {
      }
    }
  }

  // ---------------------------------------------------------------------------------------
  // createUnits

  /** The checks `createUnits` makes before its loop: the medication exists, the caller is its
      manufacturer, it is approved, and its counter is readable. */
  predicate MayCreateUnits(st: WorldState, who: Identity, sha: string -> string, medId: string) {
    GetMed(st, medId).Success? && CallingActor(st, who, sha).Success?
    && st[medId].med.herstellerId == CallingActor(st, who, sha).value.actorId
    && RoleIs(st[medId].med.status, "freigegeben")
    && GetCounter(st, medId).Success?
  }

  /** `createUnits` succeeds exactly when its checks pass and none of the unit numbers after the
      counter is taken; otherwise a taken number fails the whole call. */
  lemma CreateUnitsAllOrNothing(st: WorldState, who: Identity, sha: string -> string,
                                medId: string, charge: string, anzahl: int, ipfsLink: string)
    ensures var count := if anzahl > 0 then anzahl else 0;
      CreateUnits(st, who, sha, medId, charge, anzahl, ipfsLink).Success?
      <==> MayCreateUnits(st, who, sha, medId)
           && forall n :: GetCounter(st, medId).value < n <= GetCounter(st, medId).value + count
                ==> UnitKey(medId, charge, n) !in st
    ensures var count := if anzahl > 0 then anzahl else 0;
      MayCreateUnits(st, who, sha, medId)
      && (exists n :: GetCounter(st, medId).value < n <= GetCounter(st, medId).value + count
                      && UnitKey(medId, charge, n) in st)
      ==> CreateUnits(st, who, sha, medId, charge, anzahl, ipfsLink) == Failure(UnitAlreadyExists)
  {
    if MayCreateUnits(st, who, sha, medId) {
      var count := if anzahl > 0 then anzahl else 0;
      var owner := CallingActor(st, who, sha).value.actorId;
      ChargeKeysInjective(medId, charge);
      ChargeKeysAre(medId, charge);
      MintUnitsSucceedsIffFree(st, ChargeKeys(medId, charge), medId, charge, ipfsLink, owner, GetCounter(st, medId).value, count);
    }
  }

  /** A successful `createUnits` is the minting loop from the stored counter followed by the
      write of the advanced counter. */
  lemma CreateUnitsIsMint(st: WorldState, who: Identity, sha: string -> string,
                          medId: string, charge: string, anzahl: int, ipfsLink: string)
    requires CreateUnits(st, who, sha, medId, charge, anzahl, ipfsLink).Success?
    ensures var count := if anzahl > 0 then anzahl else 0;
      var mint := MintUnits(st, ChargeKeys(medId, charge), medId, charge, ipfsLink, CallingActor(st, who, sha).value.actorId,
                            GetCounter(st, medId).value, count);
      mint.Success?
      && CreateUnits(st, who, sha, medId, charge, anzahl, ipfsLink).value
         == Committed(mint.value.state[CounterKey(medId) := CounterRecord(mint.value.counter)],
                      mint.value.events, UnitsOut(mint.value.units))
  {
  }

  /** A successful `createUnits` stores one fresh unit per number after the old counter, owned
      by the caller. */
  lemma CreateUnitsCreates(st: WorldState, who: Identity, sha: string -> string,
                           medId: string, charge: string, anzahl: int, ipfsLink: string)
    requires CreateUnits(st, who, sha, medId, charge, anzahl, ipfsLink).Success?
    ensures var r := CreateUnits(st, who, sha, medId, charge, anzahl, ipfsLink).value;
      var start := GetCounter(st, medId).value;
      var owner := CallingActor(st, who, sha).value.actorId;
      forall n :: start < n <= start + (if anzahl > 0 then anzahl else 0) ==>
         var key := UnitKey(medId, charge, n);
         key !in st && key in r.state
         && r.state[key] == UnitRecord(NewUnit(key, medId, charge, ipfsLink, owner))
  {
    var r := CreateUnits(st, who, sha, medId, charge, anzahl, ipfsLink).value;
    var start := GetCounter(st, medId).value;
    var count := if anzahl > 0 then anzahl else 0;
    var owner := CallingActor(st, who, sha).value.actorId;
    CreateUnitsIsMint(st, who, sha, medId, charge, anzahl, ipfsLink);
    var m := MintUnits(st, ChargeKeys(medId, charge), medId, charge, ipfsLink, owner, start, count).value;
    assert r.state == m.state[CounterKey(medId) := CounterRecord(m.counter)];
    ChargeKeysInjective(medId, charge);
    MintUnitsCreates(st, ChargeKeys(medId, charge), medId, charge, ipfsLink, owner, start, count);
    forall n | start < n <= start + count
      ensures var key := UnitKey(medId, charge, n);
        key !in st && key in r.state && r.state[key] == UnitRecord(NewUnit(key, medId, charge, ipfsLink, owner))
    {
      var key := UnitKey(medId, charge, n);
      assert ChargeKeys(medId, charge)(n) == key;
      assert key !in st && key in m.state && m.state[key] == UnitRecord(NewUnit(key, medId, charge, ipfsLink, owner));
      CounterKeyNotUnitKey(medId, charge, n);
      assert r.state[key] == m.state[key];
    }
  }

  /** A successful `createUnits` returns and announces the new units in number order. */
  lemma CreateUnitsReturns(st: WorldState, who: Identity, sha: string -> string,
                           medId: string, charge: string, anzahl: int, ipfsLink: string)
    requires CreateUnits(st, who, sha, medId, charge, anzahl, ipfsLink).Success?
    ensures var r := CreateUnits(st, who, sha, medId, charge, anzahl, ipfsLink).value;
      var start := GetCounter(st, medId).value;
      var owner := CallingActor(st, who, sha).value.actorId;
      forall j :: 0 <= j < |r.output.units| ==>
         r.output.units[j] == NewUnit(UnitKey(medId, charge, start + 1 + j), medId, charge, ipfsLink, owner)
         && r.events[j] == Event("Unit", UnitKey(medId, charge, start + 1 + j), "CREATED")
  {
    var start := GetCounter(st, medId).value;
    var count := if anzahl > 0 then anzahl else 0;
    var owner := CallingActor(st, who, sha).value.actorId;
    var r := CreateUnits(st, who, sha, medId, charge, anzahl, ipfsLink).value;
    CreateUnitsIsMint(st, who, sha, medId, charge, anzahl, ipfsLink);
    var m := MintUnits(st, ChargeKeys(medId, charge), medId, charge, ipfsLink, owner, start, count).value;
    assert r.output.units == m.units && r.events == m.events;
    MintUnitsYields(st, ChargeKeys(medId, charge), medId, charge, ipfsLink, owner, start, count);
  }

  /** A successful `createUnits` leaves every other key as it was and adds only the counter and
      unit keys of the numbers it used. */
  lemma CreateUnitsFrame(st: WorldState, who: Identity, sha: string -> string,
                         medId: string, charge: string, anzahl: int, ipfsLink: string)
    requires CreateUnits(st, who, sha, medId, charge, anzahl, ipfsLink).Success?
    ensures var r := CreateUnits(st, who, sha, medId, charge, anzahl, ipfsLink).value;
      var start := GetCounter(st, medId).value;
      (forall key :: key in st && key != CounterKey(medId) ==> key in r.state && r.state[key] == st[key])
      && (forall key :: key in r.state && key !in st ==>
            key == CounterKey(medId)
            || exists n :: start < n <= start + (if anzahl > 0 then anzahl else 0) && key == UnitKey(medId, charge, n))
  {
    var start := GetCounter(st, medId).value;
    var count := if anzahl > 0 then anzahl else 0;
    var owner := CallingActor(st, who, sha).value.actorId;
    CreateUnitsIsMint(st, who, sha, medId, charge, anzahl, ipfsLink);
    MintUnitsKeepsExisting(st, ChargeKeys(medId, charge), medId, charge, ipfsLink, owner, start, count);
    MintUnitsOnlyNew(st, ChargeKeys(medId, charge), medId, charge, ipfsLink, owner, start, count);
  }

  // ---------------------------------------------------------------------------------------
  // transferUnitsInBatch: the transfer loop

  /** `key` is the key of one of the units numbered `i..end`. */
  predicate InBatch(key: string, keyOf: nat -> string, i: nat, end: int) {
    exists n: nat :: i <= n <= end && key == keyOf(n)
  }

  /** `key` holds a unit owned by `owner`. */
  predicate OwnedBy(st: WorldState, key: string, owner: string) {
    GetUnit(st, key).Success? && st[key].unit.currentOwnerActorId == owner
  }

  /** The loop leaves every key outside the batch as it was. */
  lemma {:induction false} MoveUnitsFrame(st: WorldState, keyOf: nat -> string, caller: string, newOwner: string,
                                          timestamp: string, consumed: bool, i: nat, end: int)
    requires MoveUnits(st, keyOf, caller, newOwner, timestamp, consumed, i, end).Success?
    ensures var m := MoveUnits(st, keyOf, caller, newOwner, timestamp, consumed, i, end).value;
      forall key :: key in st && !InBatch(key, keyOf, i, end) ==> m.state[key] == st[key]
    decreases end - i + 1
  {
    if i <= end {
      var key := keyOf(i);
      var st1 := st[key := UnitRecord(HandOver(st[key].unit, newOwner, timestamp, consumed))];
      MoveUnitsFrame(st1, keyOf, caller, newOwner, timestamp, consumed, i + 1, end);
      forall k | k in st && !InBatch(k, keyOf, i, end)
        ensures k != key && !InBatch(k, keyOf, i + 1, end)
      {
      }
    }
  }

  /** The loop succeeds exactly when every unit of the batch exists and belongs to the caller:
      one missing or foreign unit aborts the whole batch. */
  lemma {:induction false} MoveUnitsSucceedsIff(st: WorldState, keyOf: nat -> string, caller: string, newOwner: string,
                                                timestamp: string, consumed: bool, i: nat, end: int)
    requires Injective(keyOf)
    ensures MoveUnits(st, keyOf, caller, newOwner, timestamp, consumed, i, end).Success?
      <==> forall n: nat :: i <= n <= end ==> OwnedBy(st, keyOf(n), caller)
    decreases end - i + 1
  {
    if i <= end {
      var key := keyOf(i);
      if OwnedBy(st, key, caller) {
        var st1 := st[key := UnitRecord(HandOver(st[key].unit, newOwner, timestamp, consumed))];
        MoveUnitsSucceedsIff(st1, keyOf, caller, newOwner, timestamp, consumed, i + 1, end);
        forall n: nat | i < n <= end
          ensures OwnedBy(st1, keyOf(n), caller) <==> OwnedBy(st, keyOf(n), caller)
        {
        }
      }
    }
  }

  /** A successful loop hands every unit of the batch over to the new owner. */
  lemma {:induction false} MoveUnitsHandsOver(st: WorldState, keyOf: nat -> string, caller: string, newOwner: string,
                                              timestamp: string, consumed: bool, i: nat, end: int)
    requires Injective(keyOf)
    requires MoveUnits(st, keyOf, caller, newOwner, timestamp, consumed, i, end).Success?
    ensures var m := MoveUnits(st, keyOf, caller, newOwner, timestamp, consumed, i, end).value;
      forall n: nat :: i <= n <= end ==>
        var key := keyOf(n);
        OwnedBy(st, key, caller) && key in m.state
        && m.state[key] == UnitRecord(HandOver(st[key].unit, newOwner, timestamp, consumed))
    decreases end - i + 1
  {
    if i <= end {
      var key := keyOf(i);
      var st1 := st[key := UnitRecord(HandOver(st[key].unit, newOwner, timestamp, consumed))];
      var m := MoveUnits(st, keyOf, caller, newOwner, timestamp, consumed, i, end).value;
      MoveUnitsStep(st, keyOf, caller, newOwner, timestamp, consumed, i, end);
      assert m.state == MoveUnits(st1, keyOf, caller, newOwner, timestamp, consumed, i + 1, end).value.state;
      MoveUnitsHandsOver(st1, keyOf, caller, newOwner, timestamp, consumed, i + 1, end);
      MoveUnitsFrame(st1, keyOf, caller, newOwner, timestamp, consumed, i + 1, end);
      assert !InBatch(key, keyOf, i + 1, end) by {
        forall n: nat | i + 1 <= n <= end ensures key != keyOf(n) {
        }
      }
      forall n: nat | i <= n <= end
        ensures var k := keyOf(n);
          OwnedBy(st, k, caller) && k in m.state
          && m.state[k] == UnitRecord(HandOver(st[k].unit, newOwner, timestamp, consumed))
      {
        if n > i {
          assert st1[keyOf(n)] == st[keyOf(n)];
        }
      }
    }
  }

  /** One iteration of the transfer loop: unit number `i` belongs to the caller and comes
      first, then what the rest of the loop hands over. */
  lemma MoveUnitsStep(st: WorldState, keyOf: nat -> string, caller: string, newOwner: string,
                      timestamp: string, consumed: bool, i: nat, end: int)
    requires i <= end
    requires MoveUnits(st, keyOf, caller, newOwner, timestamp, consumed, i, end).Success?
    ensures var key := keyOf(i);
      OwnedBy(st, key, caller)
      && var unit := HandOver(st[key].unit, newOwner, timestamp, consumed);
      var rest := MoveUnits(st[key := UnitRecord(unit)], keyOf, caller, newOwner, timestamp, consumed, i + 1, end);
      var m := MoveUnits(st, keyOf, caller, newOwner, timestamp, consumed, i, end).value;
      rest.Success? && m.units == [unit] + rest.value.units
      && m.events == [Event("Unit", key, "UPDATED")] + rest.value.events
  {
  }

  /** The loop returns and announces the handed-over units in number order. */
  lemma MoveUnitsYields(st: WorldState, keyOf: nat -> string, caller: string, newOwner: string,
                        timestamp: string, consumed: bool, i: nat, end: int)
    requires Injective(keyOf)
    requires MoveUnits(st, keyOf, caller, newOwner, timestamp, consumed, i, end).Success?
    ensures var m := MoveUnits(st, keyOf, caller, newOwner, timestamp, consumed, i, end).value;
      forall n: nat :: i <= n <= end ==>
        OwnedBy(st, keyOf(n), caller)
        && m.units[n - i] == HandOver(st[keyOf(n)].unit, newOwner, timestamp, consumed)
        && m.events[n - i] == Event("Unit", keyOf(n), "UPDATED")
  {
    MoveUnitsHandsOver(st, keyOf, caller, newOwner, timestamp, consumed, i, end);
    forall n: nat | i <= n <= end
      ensures var m := MoveUnits(st, keyOf, caller, newOwner, timestamp, consumed, i, end).value;
        m.units[n - i] == HandOver(st[keyOf(n)].unit, newOwner, timestamp, consumed)
        && m.events[n - i] == Event("Unit", keyOf(n), "UPDATED")
    {
      MoveUnitsReturnsAt(st, keyOf, caller, newOwner, timestamp, consumed, i, end, n);
      MoveUnitsAnnouncesAt(st, keyOf, caller, newOwner, timestamp, consumed, i, end, n);
    }
  }

  /** The unit numbered `n` is returned at position `n - i`. */
  lemma {:induction false} MoveUnitsReturnsAt(st: WorldState, keyOf: nat -> string, caller: string, newOwner: string,
                                              timestamp: string, consumed: bool, i: nat, end: int, n: nat)
    requires Injective(keyOf)
    requires MoveUnits(st, keyOf, caller, newOwner, timestamp, consumed, i, end).Success?
    requires i <= n <= end
    ensures OwnedBy(st, keyOf(n), caller)
    ensures MoveUnits(st, keyOf, caller, newOwner, timestamp, consumed, i, end).value.units[n - i]
      == HandOver(st[keyOf(n)].unit, newOwner, timestamp, consumed)
    decreases n - i
  {
    MoveUnitsStep(st, keyOf, caller, newOwner, timestamp, consumed, i, end);
    if n > i {
      var key := keyOf(i);
      var st1 := st[key := UnitRecord(HandOver(st[key].unit, newOwner, timestamp, consumed))];
      var m := MoveUnits(st, keyOf, caller, newOwner, timestamp, consumed, i, end).value;
      var rest := MoveUnits(st1, keyOf, caller, newOwner, timestamp, consumed, i + 1, end).value;
      MoveUnitsReturnsAt(st1, keyOf, caller, newOwner, timestamp, consumed, i + 1, end, n);
      var k := keyOf(n);
      assert k in st && st1[k] == st[k];
      assert m.units[n - i] == rest.units[n - (i + 1)];
    }
  }

  /** The update of the unit numbered `n` is announced at position `n - i`. */
  lemma {:induction false} MoveUnitsAnnouncesAt(st: WorldState, keyOf: nat -> string, caller: string, newOwner: string,
                                                timestamp: string, consumed: bool, i: nat, end: int, n: nat)
    requires MoveUnits(st, keyOf, caller, newOwner, timestamp, consumed, i, end).Success?
    requires i <= n <= end
    ensures MoveUnits(st, keyOf, caller, newOwner, timestamp, consumed, i, end).value.events[n - i]
      == Event("Unit", keyOf(n), "UPDATED")
    decreases n - i
  {
    MoveUnitsStep(st, keyOf, caller, newOwner, timestamp, consumed, i, end);
    if n > i {
      var key := keyOf(i);
      var st1 := st[key := UnitRecord(HandOver(st[key].unit, newOwner, timestamp, consumed))];
      var m := MoveUnits(st, keyOf, caller, newOwner, timestamp, consumed, i, end).value;
      var rest := MoveUnits(st1, keyOf, caller, newOwner, timestamp, consumed, i + 1, end).value;
      MoveUnitsAnnouncesAt(st1, keyOf, caller, newOwner, timestamp, consumed, i + 1, end, n);
      assert m.events[n - i] == rest.events[n - (i + 1)];
    }
  }

  // ---------------------------------------------------------------------------------------
  // transferUnitsInBatch

  /** A batch transfer succeeds exactly when the caller and recipient are registered actors,
      the medication key exists, the range is a non-empty range of positive numbers, and every
      unit in it exists and belongs to the caller. */
  lemma BatchAllOrNothing(st: WorldState, who: Identity, sha: string -> string,
                          medId: string, charge: string, start: int, end: int, newOwner: string, timestamp: string)
    ensures TransferUnitsInBatch(st, who, sha, medId, charge, start, end, newOwner, timestamp).Success?
      <==> CallingActor(st, who, sha).Success? && GetActor(st, newOwner, ActorNotFound).Success?
           && medId in st && 0 < start <= end
           && forall n: nat :: start <= n <= end ==>
                OwnedBy(st, UnitKey(medId, charge, n), CallingActor(st, who, sha).value.actorId)
  {
    if CallingActor(st, who, sha).Success? && GetActor(st, newOwner, ActorNotFound).Success? && medId in st && 0 < start <= end {
      var consumed := IsConsumerRole(st[newOwner].actor.role);
      ChargeKeysInjective(medId, charge);
      ChargeKeysAre(medId, charge);
      MoveUnitsSucceedsIff(st, ChargeKeys(medId, charge), CallingActor(st, who, sha).value.actorId, newOwner, timestamp, consumed, start, end);
    }
  }

  /** A successful batch transfer hands every unit of the range to the recipient, marking them
      consumed exactly when the recipient is a pharmacy or consumer, returns them in order, and
      leaves every other key as it was. */
  lemma BatchEffect(st: WorldState, who: Identity, sha: string -> string,
                    medId: string, charge: string, start: int, end: int, newOwner: string, timestamp: string)
    requires TransferUnitsInBatch(st, who, sha, medId, charge, start, end, newOwner, timestamp).Success?
    ensures var r := TransferUnitsInBatch(st, who, sha, medId, charge, start, end, newOwner, timestamp).value;
      var consumed := IsConsumerRole(st[newOwner].actor.role);
      (forall n: nat :: start <= n <= end ==>
         var key := UnitKey(medId, charge, n);
         OwnedBy(st, key, CallingActor(st, who, sha).value.actorId) && key in r.state
         && r.state[key] == UnitRecord(HandOver(st[key].unit, newOwner, timestamp, consumed))
         && r.output.units[n - start] == HandOver(st[key].unit, newOwner, timestamp, consumed))
      && (forall key :: key in st && !InBatch(key, ChargeKeys(medId, charge), start, end) ==> r.state[key] == st[key])
  {
    var caller := CallingActor(st, who, sha).value.actorId;
    var consumed := IsConsumerRole(st[newOwner].actor.role);
    var m := MoveUnits(st, ChargeKeys(medId, charge), caller, newOwner, timestamp, consumed, start, end).value;
    assert TransferUnitsInBatch(st, who, sha, medId, charge, start, end, newOwner, timestamp).value
           == Committed(m.state, m.events, UnitsOut(m.units));
    ChargeKeysInjective(medId, charge);
    MoveUnitsHandsOver(st, ChargeKeys(medId, charge), caller, newOwner, timestamp, consumed, start, end);
    MoveUnitsYields(st, ChargeKeys(medId, charge), caller, newOwner, timestamp, consumed, start, end);
    MoveUnitsFrame(st, ChargeKeys(medId, charge), caller, newOwner, timestamp, consumed, start, end);
    ChargeKeysAre(medId, charge);
  }

  // ---------------------------------------------------------------------------------------
  // Invariants

  /** A record stored under `key` names that key as its id, and a consumed unit's consumer
      reference is its current owner. */
  predicate RecordFits(key: string, rec: Record) {
    match rec
    case ActorRecord(a) => a.actorId == key
    case MedRecord(m) => m.medId == key
    case UnitRecord(u) => u.unitId == key && (u.isConsumed ==> u.consumedRefId == u.currentOwnerActorId)
    case CounterRecord(_) => true
  }

  predicate Consistent(st: WorldState) {
    forall key :: key in st ==> RecordFits(key, st[key])
  }

  /** The batch loop keeps the state consistent. */
  lemma {:induction false} MoveUnitsKeepsConsistent(st: WorldState, keyOf: nat -> string, caller: string, newOwner: string,
                                                    timestamp: string, consumed: bool, i: nat, end: int)
    requires Consistent(st)
    requires MoveUnits(st, keyOf, caller, newOwner, timestamp, consumed, i, end).Success?
    ensures Consistent(MoveUnits(st, keyOf, caller, newOwner, timestamp, consumed, i, end).value.state)
    decreases end - i + 1
  {
    if i <= end {
      var key := keyOf(i);
      var st1 := st[key := UnitRecord(HandOver(st[key].unit, newOwner, timestamp, consumed))];
      assert RecordFits(key, st1[key]);
      MoveUnitsKeepsConsistent(st1, keyOf, caller, newOwner, timestamp, consumed, i + 1, end);
    }
  }

  /** `createUnits` keeps the state consistent. */
  lemma CreateUnitsKeepsConsistent(st: WorldState, who: Identity, sha: string -> string,
                                   medId: string, charge: string, anzahl: int, ipfsLink: string)
    requires Consistent(st)
    requires CreateUnits(st, who, sha, medId, charge, anzahl, ipfsLink).Success?
    ensures Consistent(CreateUnits(st, who, sha, medId, charge, anzahl, ipfsLink).value.state)
  {
    var r := CreateUnits(st, who, sha, medId, charge, anzahl, ipfsLink).value;
    var start := GetCounter(st, medId).value;
    CreateUnitsCreates(st, who, sha, medId, charge, anzahl, ipfsLink);
    CreateUnitsFrame(st, who, sha, medId, charge, anzahl, ipfsLink);
    forall key | key in r.state ensures RecordFits(key, r.state[key]) {
      if key != CounterKey(medId) && key !in st {
        var n :| start < n <= start + (if anzahl > 0 then anzahl else 0) && key == UnitKey(medId, charge, n);
      }
    }
  }

  /** Every transaction keeps the state consistent. */
  lemma SubmitKeepsConsistent(st: WorldState, who: Identity, sha: string -> string, tx: Tx)
    requires Consistent(st)
    requires Submit(st, who, sha, tx).Success?
    ensures Consistent(Submit(st, who, sha, tx).value.state)
  {
    if ActorTx(tx) {
      ActorTxKeepsConsistent(st, who, sha, tx);
    } else if MedTx(tx) {
      MedTxKeepsConsistent(st, who, sha, tx);
    } else if SingleUnitTx(tx) {
      UnitTxKeepsConsistent(st, who, sha, tx);
    } else {
      BatchTxKeepsConsistent(st, who, sha, tx);
    }
  }

  lemma BatchTxKeepsConsistent(st: WorldState, who: Identity, sha: string -> string, tx: Tx)
    requires tx.CreateUnitsTx? || tx.TransferUnitsInBatchTx?
    requires Consistent(st)
    requires Submit(st, who, sha, tx).Success?
    ensures Consistent(Submit(st, who, sha, tx).value.state)
  {
    match tx
    case CreateUnitsTx(m, c, n, l) =>
      CreateUnitsKeepsConsistent(st, who, sha, m, c, n, l);
    case TransferUnitsInBatchTx(m, c, a, b, o, ts) =>
      var caller := CallingActor(st, who, sha).value.actorId;
      var consumed := IsConsumerRole(st[o].actor.role);
      MoveUnitsKeepsConsistent(st, ChargeKeys(m, c), caller, o, ts, consumed, a, b);
  }

  /** The transactions on actors, on medications, and on single units. */
  predicate ActorTx(tx: Tx) {
    tx.InitCallTx? || tx.CreateActorTx? || tx.UpdateActorTx? || tx.UpdateActorIpfsLinkTx? || tx.DeleteActorTx?
  }

  predicate MedTx(tx: Tx) {
    tx.CreateMedikamentTx? || tx.ApproveMedikamentTx? || tx.UpdateMedikamentTx? || tx.AddMedikamentTagTx?
    || tx.DeleteMedikamentTx?
  }

  predicate SingleUnitTx(tx: Tx) {
    tx.AddTemperatureReadingTx? || tx.TransferUnitTx? || tx.TransferUnitToConsumerTx?
  }

  lemma ActorTxKeepsConsistent(st: WorldState, who: Identity, sha: string -> string, tx: Tx)
    requires ActorTx(tx) && Consistent(st)
    requires Submit(st, who, sha, tx).Success?
    ensures Consistent(Submit(st, who, sha, tx).value.state)
  {
  }

  lemma MedTxKeepsConsistent(st: WorldState, who: Identity, sha: string -> string, tx: Tx)
    requires MedTx(tx) && Consistent(st)
    requires Submit(st, who, sha, tx).Success?
    ensures Consistent(Submit(st, who, sha, tx).value.state)
  {
  }

  lemma UnitTxKeepsConsistent(st: WorldState, who: Identity, sha: string -> string, tx: Tx)
    requires SingleUnitTx(tx) && Consistent(st)
    requires Submit(st, who, sha, tx).Success?
    ensures Consistent(Submit(st, who, sha, tx).value.state)
  {
  }

  // ---------------------------------------------------------------------------------------
  // Registration

  /** After `initCall` the submitting identity resolves to the actor it returned, so it can
      take part in every other transaction. */
  lemma InitCallRegisters(st: WorldState, who: Identity, sha: string -> string, bezeichnung: string, email: string, ipfsLink: string)
    requires InitCall(st, who, sha, bezeichnung, email, ipfsLink).Success?
    ensures var r := InitCall(st, who, sha, bezeichnung, email, ipfsLink).value;
      CallingActor(r.state, who, sha) == Success(r.output.actor)
  {
  }

  /** In a consistent state, the actor `initCall` returns lives under, and is named by,
      `lower(role) + "-" + sha256(mspId + "-" + clientId)`. */
  lemma InitCallActorId(st: WorldState, who: Identity, sha: string -> string, bezeichnung: string, email: string, ipfsLink: string)
    requires Consistent(st)
    requires InitCall(st, who, sha, bezeichnung, email, ipfsLink).Success?
    ensures var r := InitCall(st, who, sha, bezeichnung, email, ipfsLink).value;
      r.output.actor.actorId == ActorKey(CertRole(who).value, who, sha)
      && StartsWith(r.output.actor.actorId, Lower(CertRole(who).value) + "-")
  {
    var key := ActorKey(CertRole(who).value, who, sha);
    if key in st {
      assert RecordFits(key, st[key]);
    }
  }

  /** Repeating `initCall` with the same details is a no-op: same state, same actor, no event. */
  lemma InitCallIdempotent(st: WorldState, who: Identity, sha: string -> string, bezeichnung: string, email: string, ipfsLink: string)
    requires InitCall(st, who, sha, bezeichnung, email, ipfsLink).Success?
    ensures var r := InitCall(st, who, sha, bezeichnung, email, ipfsLink).value;
      InitCall(r.state, who, sha, bezeichnung, email, ipfsLink) == Success(Committed(r.state, [], r.output))
  {
  }

  // ---------------------------------------------------------------------------------------
  // Medication life cycle

  /** A key holding a medication in both states holds it with the same status. */
  predicate StatusesKept(st: WorldState, st2: WorldState) {
    forall key :: key in st && key in st2 && st[key].MedRecord? && st2[key].MedRecord?
      ==> st2[key].med.status == st[key].med.status
  }

  /** Only `approveMedikament` changes the status of a stored medication. */
  lemma OnlyApprovalChangesStatus(st: WorldState, who: Identity, sha: string -> string, tx: Tx)
    requires !tx.ApproveMedikamentTx?
    requires Submit(st, who, sha, tx).Success?
    ensures StatusesKept(st, Submit(st, who, sha, tx).value.state)
  {
    if ActorTx(tx) {
      ActorTxKeepsStatuses(st, who, sha, tx);
    } else if MedTx(tx) {
      MedTxKeepsStatuses(st, who, sha, tx);
    } else if SingleUnitTx(tx) {
      UnitTxKeepsStatuses(st, who, sha, tx);
    } else {
      BatchTxKeepsStatuses(st, who, sha, tx);
    }
  }

  lemma BatchTxKeepsStatuses(st: WorldState, who: Identity, sha: string -> string, tx: Tx)
    requires tx.CreateUnitsTx? || tx.TransferUnitsInBatchTx?
    requires Submit(st, who, sha, tx).Success?
    ensures StatusesKept(st, Submit(st, who, sha, tx).value.state)
  {
    match tx
    case CreateUnitsTx(m, c, n, l) =>
      CreateUnitsKeepsStatuses(st, who, sha, m, c, n, l);
    case TransferUnitsInBatchTx(m, c, a, b, o, ts) =>
      BatchKeepsStatuses(st, who, sha, m, c, a, b, o, ts);
  }

  lemma CreateUnitsKeepsStatuses(st: WorldState, who: Identity, sha: string -> string,
                                 medId: string, charge: string, anzahl: int, ipfsLink: string)
    requires CreateUnits(st, who, sha, medId, charge, anzahl, ipfsLink).Success?
    ensures StatusesKept(st, CreateUnits(st, who, sha, medId, charge, anzahl, ipfsLink).value.state)
  {
    CreateUnitsFrame(st, who, sha, medId, charge, anzahl, ipfsLink);
    var r := CreateUnits(st, who, sha, medId, charge, anzahl, ipfsLink).value;
    forall key | key in st && key in r.state && st[key].MedRecord? && r.state[key].MedRecord?
      ensures r.state[key].med.status == st[key].med.status
    {
      assert key != CounterKey(medId);
    }
  }

  lemma BatchKeepsStatuses(st: WorldState, who: Identity, sha: string -> string,
                           medId: string, charge: string, start: int, end: int, newOwner: string, timestamp: string)
    requires TransferUnitsInBatch(st, who, sha, medId, charge, start, end, newOwner, timestamp).Success?
    ensures StatusesKept(st, TransferUnitsInBatch(st, who, sha, medId, charge, start, end, newOwner, timestamp).value.state)
  {
    var caller := CallingActor(st, who, sha).value.actorId;
    var consumed := IsConsumerRole(st[newOwner].actor.role);
    var m := MoveUnits(st, ChargeKeys(medId, charge), caller, newOwner, timestamp, consumed, start, end).value;
    assert TransferUnitsInBatch(st, who, sha, medId, charge, start, end, newOwner, timestamp).value.state == m.state;
    ChargeKeysInjective(medId, charge);
    MoveUnitsHandsOver(st, ChargeKeys(medId, charge), caller, newOwner, timestamp, consumed, start, end);
    MoveUnitsFrame(st, ChargeKeys(medId, charge), caller, newOwner, timestamp, consumed, start, end);
    forall key | key in st && key in m.state && st[key].MedRecord? && m.state[key].MedRecord?
      ensures m.state[key].med.status == st[key].med.status
    {
      assert !InBatch(key, ChargeKeys(medId, charge), start, end);
    }
  }

  lemma ActorTxKeepsStatuses(st: WorldState, who: Identity, sha: string -> string, tx: Tx)
    requires ActorTx(tx)
    requires Submit(st, who, sha, tx).Success?
    ensures StatusesKept(st, Submit(st, who, sha, tx).value.state)
  {
  }

  lemma MedTxKeepsStatuses(st: WorldState, who: Identity, sha: string -> string, tx: Tx)
    requires MedTx(tx) && !tx.ApproveMedikamentTx?
    requires Submit(st, who, sha, tx).Success?
    ensures StatusesKept(st, Submit(st, who, sha, tx).value.state)
  {
  }

  lemma UnitTxKeepsStatuses(st: WorldState, who: Identity, sha: string -> string, tx: Tx)
    requires SingleUnitTx(tx)
    requires Submit(st, who, sha, tx).Success?
    ensures StatusesKept(st, Submit(st, who, sha, tx).value.state)
  {
  }

  /** A medication just created is not approved, so nobody can create units of it yet. */
  lemma NewMedikamentHasNoUnits(st: WorldState, who: Identity, sha: string -> string,
                                bezeichnung: string, infoblattHash: string, ipfsLink: string,
                                who2: Identity, charge: string, anzahl: int, unitLink: string)
    requires CreateMedikament(st, who, sha, bezeichnung, infoblattHash, ipfsLink).Success?
    ensures var r := CreateMedikament(st, who, sha, bezeichnung, infoblattHash, ipfsLink).value;
      CreateUnits(r.state, who2, sha, r.output.med.medId, charge, anzahl, unitLink).Failure?
  {
    var r := CreateMedikament(st, who, sha, bezeichnung, infoblattHash, ipfsLink).value;
    assert |Lower(r.output.med.status)| != |"freigegeben"|;
  }

  /** The medication id depends only on the manufacturer and the three fields, so creating the
      same medication twice fails. */
  lemma CreateMedikamentTwiceFails(st: WorldState, who: Identity, sha: string -> string,
                                   bezeichnung: string, infoblattHash: string, ipfsLink: string)
    requires CreateMedikament(st, who, sha, bezeichnung, infoblattHash, ipfsLink).Success?
    ensures var r := CreateMedikament(st, who, sha, bezeichnung, infoblattHash, ipfsLink).value;
      CreateMedikament(r.state, who, sha, bezeichnung, infoblattHash, ipfsLink) == Failure(MedikamentAlreadyExists)
  {
    var r := CreateMedikament(st, who, sha, bezeichnung, infoblattHash, ipfsLink).value;
    var role := CertRole(who).value;
    var key := ActorKey(role, who, sha);
    var medId := MedKey(CallingActor(st, who, sha).value.actorId, bezeichnung, infoblattHash, ipfsLink, sha);
    ActorKeyIsNoMedKey(role, who, sha, medId[4..]);
    assert medId == "MED-" + medId[4..];
    assert r.state[key] == st[key];
    assert CallingActor(r.state, who, sha) == CallingActor(st, who, sha);
  }

  /** An actor key starts with a lower-case role and a dash, so it is never a medication id
      (`MED-…`) nor that medication's unit counter key (`unitCounter_MED-…`). */
  lemma ActorKeyIsNoMedKey(role: string, who: Identity, sha: string -> string, hash: string)
    ensures ActorKey(role, who, sha) != "MED-" + hash
    ensures ActorKey(role, who, sha) != CounterKey("MED-" + hash)
  {
    var key := ActorKey(role, who, sha);
    var counter := CounterKey("MED-" + hash);
    if |role| == 0 {
      assert key[0] == '-';
    } else {
      assert key[0] == LowerChar(role[0]);
    }
    if |role| >= 5 {
      assert key[4] == LowerChar(role[4]) && counter[4] == 'C';
    } else {
      assert key[|role|] == '-' && counter[..5] == "unitC";
    }
  }

  // ---------------------------------------------------------------------------------------
  // Units

  /** A unit handed to a pharmacy is consumed, so it can no longer be handed to a consumer. */
  lemma PharmacyReceiptIsFinal(st: WorldState, who: Identity, sha: string -> string,
                               unitId: string, pharmacy: string, timestamp: string,
                               who2: Identity, consumer: string, timestamp2: string)
    requires TransferUnit(st, who, sha, unitId, pharmacy, timestamp).Success?
    requires RoleIs(st[pharmacy].actor.role, "apotheke")
    ensures var r := TransferUnit(st, who, sha, unitId, pharmacy, timestamp).value;
      r.state[unitId].unit.isConsumed
      && TransferUnitToConsumer(r.state, who2, sha, unitId, consumer, timestamp2).Failure?
  {
  }
}


/**
 * The one interface setting RouteLane writes, against an administrator who may change any value or device
 * between any two calls. Every call of the world starts with such an interlude and may fail.
 */
module Settings {
  import opened Wrappers
  import opened Plan
  import opened Journal

  function Intent(identity: InterfaceIdentity): SettingReceipt {
    SettingReceipt(identity, 0, 1)
  }

  function Identities(receipts: seq<SettingReceipt>): set<InterfaceIdentity> {
    set r | r in receipts :: r.identity
  }

  /**
   * What survives a crash: the devices and their values, and the committed and the pending receipts of the journal.
   * `owed` are the interfaces RouteLane wrote and has neither restored nor given up on, `touched` those somebody
   * else changed, and `givenUp` those whose restore was reported as failed.
   */
  datatype State = State(
    present: map<string, InterfaceIdentity>,
    values: map<InterfaceIdentity, nat>,
    committed: seq<SettingReceipt>,
    intents: seq<SettingReceipt>,
    owed: set<InterfaceIdentity>,
    touched: set<InterfaceIdentity>,
    givenUp: set<InterfaceIdentity>)
  {
    predicate Undisturbed(original: map<InterfaceIdentity, nat>, identity: InterfaceIdentity) {
      identity in original && identity !in touched && identity !in givenUp
    }

    /** An undisturbed interface has its original value, or RouteLane's exactly while it is owed. */
    predicate Consistent(original: map<InterfaceIdentity, nat>) {
      forall identity :: identity in original && Undisturbed(original, identity) ==>
        && identity.name in present && present[identity.name] == identity && identity in values
        && values[identity] == (if identity in owed then 1 else original[identity])
        && (identity in owed ==> original[identity] == 0)
    }

    /** A receipt that says the truth about an undisturbed interface. */
    predicate Honest(original: map<InterfaceIdentity, nat>, r: SettingReceipt) {
      r == Intent(r.identity) && (Undisturbed(original, r.identity) ==> original[r.identity] == 0)
    }

    /** RouteLane writes such receipts only for interfaces it may write to. */
    predicate HonestReceipts(original: map<InterfaceIdentity, nat>, receipts: seq<SettingReceipt>) {
      forall r :: r in receipts ==> Honest(original, r) && ValidScope(r.identity)
    }

    /** A journal that tells the truth, and names no interface twice over. */
    predicate Sound(original: map<InterfaceIdentity, nat>) {
      && Consistent(original)
      && HonestReceipts(original, committed) && HonestReceipts(original, intents)
      && Identities(committed) !! Identities(intents)
    }

    /** Every interface still owed its old value has a durable receipt. */
    predicate Covered() {
      forall identity :: identity in owed ==> Intent(identity) in committed + intents
    }
  }

  ghost predicate AllSound(original: map<InterfaceIdentity, nat>, states: set<State>) {
    forall s :: s in states ==> s.Sound(original)
  }

  ghost predicate AllCovered(states: set<State>) {
    forall s :: s in states ==> s.Covered()
  }

  /** The same journal with no more owed, after anything the administrator or a failed restore may have done. */
  ghost predicate Later(before: State, s: State) {
    && s.committed == before.committed && s.intents == before.intents
    && s.owed <= before.owed && before.touched <= s.touched && before.givenUp <= s.givenUp
  }

  ghost predicate OnlyLater(original: map<InterfaceIdentity, nat>, start: State, before: set<State>, after: set<State>) {
    forall s :: s in after && s !in before ==> Later(start, s) && s.Consistent(original)
  }

  lemma LaterIsSound(original: map<InterfaceIdentity, nat>, before: State, s: State)
    requires before.Sound(original) && Later(before, s) && s.Consistent(original)
    ensures s.Sound(original) && (before.Covered() ==> s.Covered())
  {
  }

  lemma OnlyLaterIsSound(original: map<InterfaceIdentity, nat>, start: State, before: set<State>, after: set<State>)
    requires start.Sound(original) && OnlyLater(original, start, before, after) && AllSound(original, before)
    ensures AllSound(original, after) && (start.Covered() && AllCovered(before) ==> AllCovered(after))
  {
    forall s | s in after ensures s.Sound(original) && (start.Covered() && AllCovered(before) ==> s.Covered()) {
      if s !in before {
        LaterIsSound(original, start, s);
      }
    }
  }

  lemma WrittenIsConsistent(original: map<InterfaceIdentity, nat>, s: State, identity: InterfaceIdentity, value: nat)
    requires s.Consistent(original) && (value == 0 || value == 1)
    requires s.Undisturbed(original, identity) ==> original[identity] == 0
    ensures s.(values := s.values[identity := value],
               owed := if value == 1 then s.owed + {identity} else s.owed - {identity}).Consistent(original)
  {
  }

  /** The intent is durable. */
  function Journaled(s: State, identity: InterfaceIdentity): State {
    s.(intents := s.intents + [Intent(identity)])
  }

  /** The setting is on. */
  function Switched(s: State, identity: InterfaceIdentity): State {
    s.(values := s.values[identity := 1], owed := s.owed + {identity})
  }

  /** What RouteLane reads and never writes: reverse-path modes, that of all interfaces under "all", and the mark of all. */
  datatype Filtering = Filtering(modes: map<string, nat>, mark: nat)

  const ALL_INTERFACES: string := "all"

  /** One call to the system: a value that was read, or an attempt to save the journal or to write. */
  datatype Access =
    | IdentityRead(name: string, found: InterfaceIdentity)
    | ModeRead(name: string, value: nat)
    | MarkRead(name: string, value: nat)
    | Saving
    | Writing(identity: InterfaceIdentity, value: nat)

  class Interfaces {
    /** Nobody interferes and no call fails. */
    const calm: bool
    var filtering: Filtering
    var present: map<string, InterfaceIdentity>
    var values: map<InterfaceIdentity, nat>
    var committed: seq<SettingReceipt>
    var intents: seq<SettingReceipt>

    /** Values before RouteLane ever ran. */
    ghost const original: map<InterfaceIdentity, nat>
    ghost var owed: set<InterfaceIdentity>
    ghost var touched: set<InterfaceIdentity>
    ghost var givenUp: set<InterfaceIdentity>
    /** How often RouteLane has written a setting. */
    ghost var writes: nat
    /** How often a call failed that found its device or the store. */
    ghost var faults: nat
    /** The calls so far, but for reads that failed. */
    ghost var accesses: seq<Access>
    /** Where this run began. */
    const origin: State
    /** Every state a crash could leave. */
    ghost var seen: set<State>

    constructor (s: State, filtering: Filtering, ghost original: map<InterfaceIdentity, nat>, calm: bool)
      requires s.Consistent(original)
      ensures Now() == s && seen == {s} && origin == s && faults == 0 && this.original == original && this.calm == calm
      ensures Consistent() && this.filtering == filtering && accesses == []
    {
      this.calm, this.original, origin := calm, original, s;
      present, values, committed, intents := s.present, s.values, s.committed, s.intents;
      owed, touched, givenUp, writes, faults, seen := s.owed, s.touched, s.givenUp, 0, 0, {s};
      this.filtering, accesses := filtering, [];
    }

    ghost function Now(): State
      reads this
    {
      State(present, values, committed, intents, owed, touched, givenUp)
    }

    ghost predicate Undisturbed(identity: InterfaceIdentity)
      reads this
    {
      Now().Undisturbed(original, identity)
    }

    /** Known from before, not given up then, and changed by nobody but RouteLane so far. */
    ghost predicate LeftAlone(identity: InterfaceIdentity, wasGivenUp: set<InterfaceIdentity>)
      reads this
    {
      identity in original && identity !in touched && identity !in wasGivenUp
    }

    ghost predicate Consistent()
      reads this
    {
      Now().Consistent(original)
    }

    twostate predicate OnlyInterlude()
      reads this
    {
      && Later(old(Now()), Now()) && owed == old(owed) && givenUp == old(givenUp) && seen == old(seen)
      && (calm ==> Now() == old(Now()) && filtering == old(filtering))
    }

    method Interlude()
      requires Consistent()
      modifies this`present, this`values, this`touched, this`filtering
      ensures Consistent() && OnlyInterlude()
    {
      if calm {
        return;
      }
      ghost var p, v := present, values;
      present, values, filtering := *, *, *;
      touched := touched + set identity | identity in original
        && !(identity.name in present && present[identity.name] == identity && identity in values
             && identity in v && values[identity] == v[identity]);
    }

    method ReadIdentity(name: string) returns (r: Option<InterfaceIdentity>)
      requires Consistent()
      modifies this`present, this`values, this`touched, this`filtering, this`faults, this`accesses
      ensures Consistent() && OnlyInterlude()
      ensures r.Some? ==> name in present && present[name] == r.value
      ensures calm && name in present ==> r.Some?
      ensures faults == old(faults) + if name in present && r.None? then 1 else 0
      ensures accesses == old(accesses) + if r.None? then [] else [IdentityRead(name, r.value)]
    {
      Interlude();
      var readable := *;
      r := if name in present && (calm || readable) then Some(present[name]) else None;
      faults := faults + if name in present && r.None? then 1 else 0;
      accesses := accesses + if r.None? then [] else [IdentityRead(name, r.value)];
    }

    method ReadMark(name: string) returns (r: Option<nat>)
      requires Consistent()
      modifies this`present, this`values, this`touched, this`filtering, this`faults, this`accesses
      ensures Consistent() && OnlyInterlude()
      ensures r.Some? ==> name in present && present[name] in values && values[present[name]] == r.value
      ensures calm && name in present && present[name] in values ==> r.Some?
      ensures faults == old(faults) + if name in present && present[name] in values && r.None? then 1 else 0
      ensures accesses == old(accesses) + if r.None? then [] else [MarkRead(name, r.value)]
    {
      Interlude();
      var readable := *;
      r := if name in present && present[name] in values && (calm || readable) then Some(values[present[name]]) else None;
      faults := faults + if name in present && present[name] in values && r.None? then 1 else 0;
      accesses := accesses + if r.None? then [] else [MarkRead(name, r.value)];
    }

    method ReadMode(name: string) returns (r: Option<nat>)
      requires Consistent()
      modifies this`present, this`values, this`touched, this`filtering, this`faults, this`accesses
      ensures Consistent() && OnlyInterlude()
      ensures r.Some? ==> name in filtering.modes && filtering.modes[name] == r.value
      ensures calm && name in filtering.modes ==> r.Some?
      ensures faults == old(faults) + if name in filtering.modes && r.None? then 1 else 0
      ensures accesses == old(accesses) + if r.None? then [] else [ModeRead(name, r.value)]
    {
      Interlude();
      var readable := *;
      r := if name in filtering.modes && (calm || readable) then Some(filtering.modes[name]) else None;
      faults := faults + if name in filtering.modes && r.None? then 1 else 0;
      accesses := accesses + if r.None? then [] else [ModeRead(name, r.value)];
    }

    method ReadMarkOfAll() returns (r: Option<nat>)
      requires Consistent()
      modifies this`present, this`values, this`touched, this`filtering, this`faults, this`accesses
      ensures Consistent() && OnlyInterlude()
      ensures r.Some? ==> filtering.mark == r.value
      ensures calm ==> r.Some?
      ensures faults == old(faults) + if r.None? then 1 else 0
      ensures accesses == old(accesses) + if r.None? then [] else [MarkRead(ALL_INTERFACES, r.value)]
    {
      Interlude();
      var readable := *;
      r := if calm || readable then Some(filtering.mark) else None;
      faults := faults + if r.None? then 1 else 0;
      accesses := accesses + if r.None? then [] else [MarkRead(ALL_INTERFACES, r.value)];
    }

    method Put(identity: InterfaceIdentity, value: nat)
      requires Consistent() && (value == 0 || value == 1)
      requires Undisturbed(identity) ==> original[identity] == 0
      modifies this`values, this`owed
      ensures Consistent()
      ensures values == old(values)[identity := value]
      ensures owed == if value == 1 then old(owed) + {identity} else old(owed) - {identity}
    {
      WrittenIsConsistent(original, Now(), identity, value);
      values := values[identity := value];
      owed := if value == 1 then owed + {identity} else owed - {identity};
    }

    /** A write reaches only the device the receipt names; a failed one may have taken effect. */
    method WriteMark(identity: InterfaceIdentity, value: nat) returns (ok: bool)
      requires Consistent() && (value == 0 || value == 1)
      requires Undisturbed(identity) ==> original[identity] == 0
      modifies this
      ensures Consistent() && committed == old(committed) && intents == old(intents)
      ensures givenUp == old(givenUp) && old(touched) <= touched && (calm ==> touched == old(touched) && present == old(present))
      ensures owed == old(owed) || owed == if value == 1 then old(owed) + {identity} else old(owed) - {identity}
      ensures ok ==> owed == if value == 1 then old(owed) + {identity} else old(owed) - {identity}
      ensures calm && identity.name in present && present[identity.name] == identity ==> ok && values == old(values)[identity := value]
      ensures calm && !(identity.name in present && present[identity.name] == identity) ==> values == old(values)
      ensures faults == old(faults) + if !ok && identity.name in present && present[identity.name] == identity then 1 else 0
      ensures seen == old(seen) + {Now()} && writes == old(writes) + 1
      ensures accesses == old(accesses) + [Writing(identity, value)] && (calm ==> filtering == old(filtering))
    {
      ok := Reach(identity, value);
      writes, accesses, seen := writes + 1, accesses + [Writing(identity, value)], seen + {Now()};
    }

    method Reach(identity: InterfaceIdentity, value: nat) returns (ok: bool)
      requires Consistent() && (value == 0 || value == 1)
      requires Undisturbed(identity) ==> original[identity] == 0
      modifies this`present, this`values, this`touched, this`filtering, this`owed, this`faults
      ensures Consistent()
      ensures old(touched) <= touched && (calm ==> touched == old(touched) && present == old(present) && filtering == old(filtering))
      ensures owed == old(owed) || owed == if value == 1 then old(owed) + {identity} else old(owed) - {identity}
      ensures ok ==> owed == if value == 1 then old(owed) + {identity} else old(owed) - {identity}
      ensures calm && identity.name in present && present[identity.name] == identity ==> ok && values == old(values)[identity := value]
      ensures calm && !(identity.name in present && present[identity.name] == identity) ==> values == old(values)
      ensures faults == old(faults) + if !ok && identity.name in present && present[identity.name] == identity then 1 else 0
    {
      Interlude();
      var answered, reached := *, *;
      ok := calm || answered;
      if identity.name in present && present[identity.name] == identity && (ok || reached) {
        Put(identity, value);
      } else {
        ok := false;
      }
      faults := faults + if !ok && identity.name in present && present[identity.name] == identity then 1 else 0;
    }

    /** Replaces both lists of receipts, or neither. */
    method Save(settings: seq<SettingReceipt>, pending: seq<SettingReceipt>) returns (ok: bool)
      requires Consistent()
      modifies this
      ensures Consistent() && owed == old(owed) && givenUp == old(givenUp) && old(touched) <= touched
      ensures if ok then committed == settings && intents == pending else committed == old(committed) && intents == old(intents)
      ensures calm ==> ok && values == old(values) && present == old(present) && touched == old(touched)
      ensures seen == old(seen) + {Now()} && writes == old(writes)
      ensures faults == old(faults) + if ok then 0 else 1
      ensures accesses == old(accesses) + [Saving] && (calm ==> filtering == old(filtering))
    {
      Interlude();
      var saved := *;
      ok, accesses := calm || saved, accesses + [Saving];
      if ok {
        committed, intents := settings, pending;
      }
      faults := faults + if ok then 0 else 1;
      seen := seen + {Now()};
    }

    /** A receipt whose restore succeeded is spent; the administrator may have put the old value back first. */
    ghost method Settle(identity: InterfaceIdentity)
      requires Consistent() && (Undisturbed(identity) ==> identity !in owed)
      modifies this`owed, this`seen
      ensures Consistent() && owed == old(owed) - {identity}
      ensures seen == old(seen) + {Now()}
    {
      owed := owed - {identity};
      seen := seen + {Now()};
    }

    /** A receipt whose restore was reported as failed is spent all the same. */
    ghost method GiveUp(identity: InterfaceIdentity)
      requires Consistent()
      modifies this`owed, this`givenUp, this`seen
      ensures Consistent() && owed == old(owed) - {identity} && givenUp == old(givenUp) + {identity}
      ensures seen == old(seen) + {Now()}
    {
      owed := owed - {identity};
      givenUp := givenUp + {identity};
      seen := seen + {Now()};
    }
  }

  datatype SettingError =
    | IdentityChanged
    | Unreadable
    | InvalidValue
    | JournalFailed
    | ChangedAfterJournaling
    | WriteFailed
    | ReadBackFailed
    | InvalidReceipt
    | AdministratorChanged

  /** Global interfaces and malformed names are never written. */
  predicate ValidScope(identity: InterfaceIdentity) {
    && identity.ifindex != 0
    && identity.name !in {"all", "default", ".", ".."}
    && IsKernelInterfaceName(identity.name)
  }

  /** A device with an index, under a name that stands for no other device or path. */
  lemma ScopeIs(identity: InterfaceIdentity)
    ensures !ValidScope(identity) <==>
              || identity.ifindex == 0
              || identity.name == "all" || identity.name == "default" || identity.name == "." || identity.name == ".."
              || identity.name == "" || |identity.name| > 15
              || exists c :: c in identity.name && !('a' <= c <= 'z' || 'A' <= c <= 'Z' || '0' <= c <= '9' || c == '_' || c == '-' || c == '.')
  {
  }

  method ValidateIdentity(world: Interfaces, identity: InterfaceIdentity) returns (ok: bool)
    requires world.Consistent()
    modifies world`present, world`values, world`touched, world`filtering, world`faults, world`accesses
    ensures world.Consistent() && world.OnlyInterlude()
    ensures old(world.faults) <= world.faults && (world.calm ==> world.faults == old(world.faults))
    ensures old(world.accesses) <= world.accesses
    ensures ok ==> world.accesses == old(world.accesses) + [IdentityRead(identity.name, identity)]
    ensures ValidScope(identity) && world.Undisturbed(identity) && world.faults == old(world.faults) ==> ok
    ensures ok ==> ValidScope(identity) && identity.name in world.present && world.present[identity.name] == identity
    ensures world.calm && ValidScope(identity) && identity.name in world.present && world.present[identity.name] == identity ==> ok
  {
    if !ValidScope(identity) {
      return false;
    }
    var found := world.ReadIdentity(identity.name);
    ok := found == Some(identity);
  }

  function Max(a: nat, b: nat): nat {
    if a > b then a else b
  }

  function Elements(identities: seq<InterfaceIdentity>): set<InterfaceIdentity> {
    set x | x in identities
  }

  /** The device is the one meant, and its mark has this value. */
  function Compared(identity: InterfaceIdentity, value: nat): seq<Access> {
    [IdentityRead(identity.name, identity), MarkRead(identity.name, value)]
  }

  /** Compared with RouteLane's own value, looked at once more, and written. */
  function TakenBack(identity: InterfaceIdentity): seq<Access> {
    Compared(identity, 1) + [IdentityRead(identity.name, identity), Writing(identity, 0)]
  }

  /** Journaled, compared with the value it had, and written. */
  function PutOn(identity: InterfaceIdentity): seq<Access> {
    [Saving] + Compared(identity, 0) + [Writing(identity, 1)]
  }

  /** Compare and restore: whatever is there other than RouteLane's own value is preserved. */
  method RestoreMark(world: Interfaces, receipt: SettingReceipt) returns (r: Result<(), SettingError>, compared: Option<nat>)
    requires world.Consistent() && world.Now().Honest(world.original, receipt)
    modifies world
    ensures world.Consistent() && Later(old(world.Now()), world.Now()) && world.givenUp == old(world.givenUp)
    ensures world.owed == old(world.owed) || world.owed == old(world.owed) - {receipt.identity}
    ensures compared != Some(receipt.applied) ==> world.owed == old(world.owed) && world.writes == old(world.writes)
    ensures world.writes <= old(world.writes) + 1
    ensures world.writes != old(world.writes) ==> old(world.accesses) + TakenBack(receipt.identity) <= world.accesses
    ensures r.Ok? ==>
              || world.accesses == old(world.accesses) + Compared(receipt.identity, 0)
              || world.accesses == old(world.accesses) + TakenBack(receipt.identity) + [MarkRead(receipt.identity.name, 0)]
    ensures old(world.seen) <= world.seen && OnlyLater(world.original, old(world.Now()), old(world.seen), world.seen)
    ensures r.Ok? && world.Undisturbed(receipt.identity) ==>
              receipt.identity !in world.owed
              && world.values[receipt.identity] == world.original[receipt.identity] == receipt.previous
    ensures r == Err(AdministratorChanged) || r == Err(InvalidReceipt) ==> !world.Undisturbed(receipt.identity)
    ensures old(world.faults) <= world.faults && (world.calm ==> world.faults == old(world.faults))
    ensures world.faults == old(world.faults) && ValidScope(receipt.identity) && world.Undisturbed(receipt.identity) ==> r.Ok?
    ensures world.calm ==> world.touched == old(world.touched) && world.present == old(world.present)
    ensures world.calm ==> forall identity ::
              identity != receipt.identity && identity in old(world.values) ==>
                identity in world.values && world.values[identity] == old(world.values)[identity]
  {
    compared := None;
    if receipt.previous != 0 || receipt.applied != 1 {
      return Err(InvalidReceipt), compared;
    }
    var identity := receipt.identity;
    var valid := ValidateIdentity(world, identity);
    if !valid {
      return Err(IdentityChanged), compared;
    }
    compared := world.ReadMark(identity.name);
    if compared.None? {
      return Err(Unreadable), compared;
    }
    if compared.value == receipt.previous {
      return Ok(()), compared;
    }
    if compared.value != receipt.applied {
      return Err(AdministratorChanged), compared;
    }
    r := TakeBack(world, identity);
  }

  /** RouteLane's own value is there: look at the device once more, write the zero and read it back. */
  method TakeBack(world: Interfaces, identity: InterfaceIdentity) returns (r: Result<(), SettingError>)
    requires world.Consistent() && ValidScope(identity)
    requires world.Undisturbed(identity) ==> world.original[identity] == 0
    modifies world
    ensures world.Consistent() && Later(old(world.Now()), world.Now()) && world.givenUp == old(world.givenUp)
    ensures world.owed == old(world.owed) || world.owed == old(world.owed) - {identity}
    ensures old(world.writes) <= world.writes <= old(world.writes) + 1
    ensures world.writes != old(world.writes) ==>
              old(world.accesses) + [IdentityRead(identity.name, identity)] + [Writing(identity, 0)] <= world.accesses
    ensures r.Ok? ==> world.accesses == old(world.accesses) + [IdentityRead(identity.name, identity)] + [Writing(identity, 0)]
                                        + [MarkRead(identity.name, 0)]
    ensures old(world.seen) <= world.seen && OnlyLater(world.original, old(world.Now()), old(world.seen), world.seen)
    ensures r.Ok? && world.Undisturbed(identity) ==>
              identity !in world.owed && world.values[identity] == world.original[identity] == 0
    ensures r != Err(AdministratorChanged) && r != Err(InvalidReceipt)
    ensures old(world.faults) <= world.faults && (world.calm ==> world.faults == old(world.faults))
    ensures world.faults == old(world.faults) && world.Undisturbed(identity) ==> r.Ok?
    ensures world.calm ==> world.touched == old(world.touched) && world.present == old(world.present)
    ensures world.calm ==> forall other ::
              other != identity && other in old(world.values) ==>
                other in world.values && world.values[other] == old(world.values)[other]
  {
    var valid := ValidateIdentity(world, identity);
    if !valid {
      return Err(IdentityChanged);
    }
    var written := world.WriteMark(identity, 0);
    if !written {
      return Err(WriteFailed);
    }
    var back := world.ReadMark(identity.name);
    if back != Some(0) {
      return Err(ReadBackFailed);
    }
    r := Ok(());
  }

  /** The pending receipts that are not committed already: what an interrupted transition may have written. */
  function Unfinished(intents: seq<SettingReceipt>, committed: seq<SettingReceipt>): seq<SettingReceipt> {
    if intents == [] then []
    else (if intents[0] in committed then [] else [intents[0]]) + Unfinished(intents[1..], committed)
  }

  lemma {:induction false} UnfinishedAre(intents: seq<SettingReceipt>, committed: seq<SettingReceipt>)
    ensures forall r :: r in Unfinished(intents, committed) <==> r in intents && r !in committed
  {
    if intents != [] {
      UnfinishedAre(intents[1..], committed);
    }
  }

  lemma {:induction false} SoundIntentsAreUnfinished(intents: seq<SettingReceipt>, committed: seq<SettingReceipt>)
    requires Identities(committed) !! Identities(intents)
    ensures Unfinished(intents, committed) == intents
  {
    if intents != [] {
      assert intents[0].identity in Identities(intents);
      assert forall r :: r in committed ==> r.identity in Identities(committed);
      assert forall r :: r in intents[1..] ==> r in intents;
      SoundIntentsAreUnfinished(intents[1..], committed);
    }
  }

  /** The helper's receipts in memory, over the store and the interfaces. */
  class SettingsKeeper {
    const world: Interfaces
    var settings: seq<SettingReceipt>
    var pending: seq<SettingReceipt>

    /** A helper that starts over a journal, whatever the last one was doing. */
    constructor Resume(world: Interfaces)
      requires world.Now().Sound(world.original)
      ensures this.world == world && settings == world.committed && pending == world.intents
    {
      this.world := world;
      settings := world.committed;
      pending := Unfinished(world.intents, world.committed);
      new;
      SoundIntentsAreUnfinished(world.intents, world.committed);
    }

    /** Memory tells the truth too, and is at most one unsaved intent ahead of the journal. */
    ghost predicate ValidNow()
      reads this, world
    {
      && world.Now().Sound(world.original)
      && world.Now().HonestReceipts(world.original, settings) && world.Now().HonestReceipts(world.original, pending)
      && Identities(settings) !! Identities(pending)
      && world.committed == settings && world.intents <= pending
      && world.Now().Covered()
      && AllSound(world.original, world.seen)
    }

    /** So far every state a crash could have left had a receipt for everything owed. */
    ghost predicate Valid()
      reads this, world
    {
      ValidNow() && AllCovered(world.seen)
    }

    /** The journal in the store is the one in memory. */
    ghost predicate Synced()
      reads this, world
    {
      world.committed == settings && world.intents == pending
    }

    /** A calm world in which this interface is plainly there. */
    ghost predicate Reachable(identity: InterfaceIdentity)
      reads this, world
    {
      && world.calm && ValidScope(identity)
      && identity.name in world.present && world.present[identity.name] == identity && identity in world.values
    }

    // ----- Writing -----

    /**
     * From the values read, modes first: the setting is wanted exactly if the larger mode is 1 and both marks are 0.
     * Modes are at most 2 and marks at most 1.
     */
    static ghost predicate Judged(before: seq<Access>, after: seq<Access>, name: string, wanted: bool) {
      exists global: nat, local: nat :: JudgedBy(before, after, name, wanted, global, local)
    }

    static ghost predicate JudgedBy(
      before: seq<Access>, after: seq<Access>, name: string, wanted: bool, global: nat, local: nat)
    {
      var modes := before + [ModeRead(ALL_INTERFACES, global)] + [ModeRead(name, local)];
      && global <= 2 && local <= 2
      && if !StrictModes(global, local) then
           !wanted && after == modes
         else
           exists all: nat, own: nat ::
             && all <= 1 && own <= 1 && wanted == (all == 0 && own == 0)
             && after == modes + [MarkRead(ALL_INTERFACES, all)] + [MarkRead(name, own)]
    }

    /** Strict filtering for the interface: the larger of the two modes is exactly 1. */
    static predicate StrictModes(global: nat, local: nat) {
      global <= 1 && local <= 1 && (global == 1 || local == 1)
    }

    /** The device was the one meant, the setting was judged wanted, and then these calls followed. */
    static ghost predicate WantedThen(before: seq<Access>, after: seq<Access>, identity: InterfaceIdentity, rest: seq<Access>) {
      exists mid: seq<Access> ::
        Judged(before + [IdentityRead(identity.name, identity)], mid, identity.name, true) && mid + rest <= after
    }

    /** The modes and marks of this interface and of all can be read. */
    ghost predicate Readable(identity: InterfaceIdentity)
      reads this, world
    {
      Reachable(identity) && ALL_INTERFACES in world.filtering.modes && identity.name in world.filtering.modes
    }

    /** The modes are in range, and so are the marks if they matter. */
    ghost predicate Legible(identity: InterfaceIdentity)
      reads this, world
    {
      && Readable(identity)
      && var global, local := world.filtering.modes[ALL_INTERFACES], world.filtering.modes[identity.name];
         && global <= 2 && local <= 2
         && (StrictModes(global, local) ==> world.values[identity] <= 1 && world.filtering.mark <= 1)
    }

    /** Its packets would be dropped: strict filtering, and the mark counts nowhere. */
    ghost predicate Strict(identity: InterfaceIdentity)
      reads this, world
    {
      && Legible(identity) && world.values[identity] == 0 && world.filtering.mark == 0
      && StrictModes(world.filtering.modes[ALL_INTERFACES], world.filtering.modes[identity.name])
    }

    /** Reads what decides whether the setting is wanted. */
    method Wanted(identity: InterfaceIdentity) returns (r: Result<bool, SettingError>)
      requires Valid()
      modifies world`present, world`values, world`touched, world`filtering, world`faults, world`accesses
      ensures Valid() && world.OnlyInterlude() && old(world.faults) <= world.faults
      ensures r.Ok? ==> Judged(old(world.accesses), world.accesses, identity.name, r.value)
      ensures r == Ok(true) && identity.name in world.present && world.present[identity.name] == identity ==>
                identity in world.values
      ensures old(Readable(identity)) ==> r == if old(Legible(identity)) then Ok(old(Strict(identity))) else Err(InvalidValue)
      ensures old(identity.name in world.present && world.present[identity.name] == identity) && r == Ok(true) ==>
                (world.Undisturbed(identity) ==> world.original[identity] == 0)
    {
      var global := world.ReadMode(ALL_INTERFACES);
      if global.None? {
        return Err(Unreadable);
      }
      var local := world.ReadMode(identity.name);
      if local.None? {
        return Err(Unreadable);
      }
      if global.value > 2 || local.value > 2 {
        return Err(InvalidValue);
      }
      if Max(global.value, local.value) != 1 {
        assert JudgedBy(old(world.accesses), world.accesses, identity.name, false, global.value, local.value);
        return Ok(false);
      }
      var all := world.ReadMarkOfAll();
      if all.None? {
        return Err(Unreadable);
      }
      var previous := world.ReadMark(identity.name);
      if previous.None? {
        return Err(Unreadable);
      }
      if all.value > 1 || previous.value > 1 {
        return Err(InvalidValue);
      }
      r := Ok(Max(all.value, previous.value) != 1);
      assert JudgedBy(old(world.accesses), world.accesses, identity.name, r.value, global.value, local.value);
    }

    /** Writes one setting where it is wanted, its intent made durable first, and only over the zero it read last. */
    method EnsureMark(identity: InterfaceIdentity)
      returns (r: Result<Option<SettingReceipt>, SettingError>, last: Option<nat>)
      requires Valid() && Synced() && identity !in Identities(settings) && identity !in Identities(pending)
      modifies this`pending, world
      ensures Valid() && old(world.seen) <= world.seen
      ensures world.intents == old(pending) || Synced()
      ensures pending == old(pending) || pending == old(pending) + [Intent(identity)]
      ensures r.Ok? ==> Synced()
      ensures r.Ok? && r.value.Some? ==> r.value == Some(Intent(identity)) && pending == old(pending) + [Intent(identity)]
      ensures r.Ok? && r.value.Some? ==> identity in world.owed
      ensures world.givenUp == old(world.givenUp) && old(world.touched) <= world.touched && old(world.faults) <= world.faults
      ensures old(world.owed) <= world.owed && old(world.writes) <= world.writes <= old(world.writes) + 1
      ensures last != Some(0) ==> world.writes == old(world.writes) && world.owed == old(world.owed)
      ensures pending != old(pending) || world.seen != old(world.seen) ==>
                WantedThen(old(world.accesses), world.accesses, identity, [Saving])
      ensures world.writes != old(world.writes) ==> WantedThen(old(world.accesses), world.accesses, identity, PutOn(identity))
      ensures r.Ok? && r.value.Some? ==>
                WantedThen(old(world.accesses), world.accesses, identity, PutOn(identity) + [MarkRead(identity.name, 1)])
      ensures r == Ok(None) ==>
                Judged(old(world.accesses) + [IdentityRead(identity.name, identity)], world.accesses, identity.name, false)
      ensures r == Ok(None) ==> pending == old(pending) && world.OnlyInterlude() && world.writes == old(world.writes)
      ensures world.calm ==> world.filtering == old(world.filtering)
      ensures old(Legible(identity) && !Strict(identity)) ==> r == Ok(None) && world.Now() == old(world.Now())
      ensures old(Readable(identity) && !Legible(identity)) ==> r == Err(InvalidValue) && world.Now() == old(world.Now())
      ensures old(Strict(identity)) ==>
                && r == Ok(Some(Intent(identity))) && world.values == old(world.values)[identity := 1]
                && world.present == old(world.present) && world.touched == old(world.touched)
                && Journaled(old(world.Now()), identity) in world.seen
                && world.Now() == Switched(Journaled(old(world.Now()), identity), identity) && world.Now() in world.seen
    {
      last := None;
      var valid := ValidateIdentity(world, identity);
      if !valid {
        return Err(IdentityChanged), last;
      }
      var wanted := Wanted(identity);
      if wanted.Err? {
        return Err(wanted.error), last;
      }
      if !wanted.value {
        return Ok(None), last;
      }
      r, last := JournalAndWrite(identity);
    }

    /** Save, look again, write, read back. */
    method JournalAndWrite(identity: InterfaceIdentity)
      returns (r: Result<Option<SettingReceipt>, SettingError>, last: Option<nat>)
      requires Valid() && Synced() && identity !in Identities(settings) && identity !in Identities(pending)
      requires ValidScope(identity) && (world.Undisturbed(identity) ==> world.original[identity] == 0)
      modifies this`pending, world
      ensures Valid() && old(world.seen) <= world.seen
      ensures pending == old(pending) + [Intent(identity)]
      ensures world.intents == old(pending) || Synced()
      ensures r.Ok? ==> Synced() && r.value == Some(Intent(identity)) && identity in world.owed
      ensures old(world.accesses) + [Saving] <= world.accesses && (world.calm ==> world.filtering == old(world.filtering))
      ensures world.writes != old(world.writes) ==> old(world.accesses) + PutOn(identity) <= world.accesses
      ensures r.Ok? ==> old(world.accesses) + (PutOn(identity) + [MarkRead(identity.name, 1)]) <= world.accesses
      ensures world.givenUp == old(world.givenUp) && old(world.touched) <= world.touched && old(world.faults) <= world.faults
      ensures old(world.owed) <= world.owed && old(world.writes) <= world.writes <= old(world.writes) + 1
      ensures last != Some(0) ==> world.writes == old(world.writes) && world.owed == old(world.owed)
      ensures old(Reachable(identity) && world.values[identity] == 0) ==>
                && r.Ok? && world.values == old(world.values)[identity := 1]
                && world.present == old(world.present) && world.touched == old(world.touched)
                && Journaled(old(world.Now()), identity) in world.seen
                && world.Now() == Switched(Journaled(old(world.Now()), identity), identity) && world.Now() in world.seen
    {
      last := None;
      var saved := JournalIntent(identity);
      if !saved {
        return Err(JournalFailed), last;
      }
      r, last := WriteJournaled(identity);
    }

    /** Looks once more at what is journaled, writes it and reads it back. */
    method WriteJournaled(identity: InterfaceIdentity)
      returns (r: Result<Option<SettingReceipt>, SettingError>, last: Option<nat>)
      requires Valid() && Synced() && Intent(identity) in pending
      modifies world
      ensures Valid() && Synced() && old(world.seen) <= world.seen
      ensures r.Ok? ==> r.value == Some(Intent(identity)) && identity in world.owed
      ensures old(world.accesses) <= world.accesses
      ensures world.writes != old(world.writes) ==>
                old(world.accesses) + Compared(identity, 0) + [Writing(identity, 1)] <= world.accesses
      ensures r.Ok? ==> world.accesses ==
                        old(world.accesses) + Compared(identity, 0) + [Writing(identity, 1)] + [MarkRead(identity.name, 1)]
      ensures (world.calm ==> world.filtering == old(world.filtering))
      ensures world.givenUp == old(world.givenUp) && old(world.touched) <= world.touched && old(world.faults) <= world.faults
      ensures old(world.owed) <= world.owed && old(world.writes) <= world.writes <= old(world.writes) + 1
      ensures last != Some(0) ==> world.writes == old(world.writes) && world.owed == old(world.owed)
      ensures old(Reachable(identity) && world.values[identity] == 0) ==>
                && r.Ok? && world.values == old(world.values)[identity := 1]
                && world.present == old(world.present) && world.touched == old(world.touched)
                && world.Now() == Switched(old(world.Now()), identity) && world.Now() in world.seen
    {
      last := None;
      var valid := ValidateIdentity(world, identity);
      if !valid {
        return Err(IdentityChanged), last;
      }
      last := world.ReadMark(identity.name);
      if last != Some(0) {
        return Err(ChangedAfterJournaling), last;
      }
      r := WriteAndReadBack(identity);
    }

    method WriteAndReadBack(identity: InterfaceIdentity) returns (r: Result<Option<SettingReceipt>, SettingError>)
      requires Valid() && Synced() && Intent(identity) in pending
      modifies world
      ensures Valid() && Synced() && old(world.seen) <= world.seen
      ensures r.Ok? ==> r.value == Some(Intent(identity)) && identity in world.owed
      ensures old(world.accesses) + [Writing(identity, 1)] <= world.accesses
      ensures r.Ok? ==> world.accesses == old(world.accesses) + [Writing(identity, 1)] + [MarkRead(identity.name, 1)]
      ensures (world.calm ==> world.filtering == old(world.filtering))
      ensures world.givenUp == old(world.givenUp) && old(world.touched) <= world.touched && old(world.faults) <= world.faults
      ensures old(world.owed) <= world.owed && old(world.writes) <= world.writes <= old(world.writes) + 1
      ensures old(Reachable(identity)) ==>
                && r.Ok? && world.values == old(world.values)[identity := 1]
                && world.present == old(world.present) && world.touched == old(world.touched)
                && world.Now() == Switched(old(world.Now()), identity) && world.Now() in world.seen
    {
      var written := world.WriteMark(identity, 1);
      if !written {
        return Err(WriteFailed);
      }
      var back := Look(identity);
      if back != Some(1) {
        return Err(ReadBackFailed);
      }
      r := Ok(Some(Intent(identity)));
    }

    method Look(identity: InterfaceIdentity) returns (mark: Option<nat>)
      requires Valid()
      modifies world`present, world`values, world`touched, world`filtering, world`faults, world`accesses
      ensures Valid() && world.OnlyInterlude() && old(world.faults) <= world.faults
      ensures world.accesses == old(world.accesses) + if mark.None? then [] else [MarkRead(identity.name, mark.value)]
      ensures old(Reachable(identity)) ==> mark == Some(world.values[identity])
    {
      mark := world.ReadMark(identity.name);
    }

    method JournalIntent(identity: InterfaceIdentity) returns (saved: bool)
      requires Valid() && Synced() && identity !in Identities(settings) && identity !in Identities(pending)
      requires ValidScope(identity) && (world.Undisturbed(identity) ==> world.original[identity] == 0)
      modifies this`pending, world
      ensures Valid() && old(world.seen) <= world.seen
      ensures pending == old(pending) + [Intent(identity)] && world.owed == old(world.owed)
      ensures (if saved then Synced() else world.intents == old(pending)) && world.writes == old(world.writes)
      ensures world.accesses == old(world.accesses) + [Saving] && (world.calm ==> world.filtering == old(world.filtering))
      ensures world.givenUp == old(world.givenUp) && old(world.touched) <= world.touched && old(world.faults) <= world.faults
      ensures world.calm ==> saved && world.Now() == Journaled(old(world.Now()), identity) && world.Now() in world.seen
    {
      pending := pending + [Intent(identity)];
      assert Identities(pending) == Identities(old(pending)) + {identity};
      saved := world.Save(settings, pending);
    }

    /** In a calm world: owned already, or plainly there with readable modes and marks. */
    ghost predicate Ready(identity: InterfaceIdentity)
      reads this, world
    {
      world.calm && (identity in Identities(settings) || Legible(identity))
    }

    /** The interfaces from the i-th on are ready, and the strict ones among them are still these. */
    ghost predicate ReadyFrom(identities: seq<InterfaceIdentity>, i: nat, strict: set<InterfaceIdentity>)
      reads this, world
    {
      forall k :: i <= k < |identities| ==>
        Ready(identities[k]) && (identities[k] !in Identities(settings) ==> (Strict(identities[k]) <==> identities[k] in strict))
    }

    /** Those of the interfaces that need the setting now. */
    ghost function AllStrict(identities: seq<InterfaceIdentity>): set<InterfaceIdentity>
      reads this, world
    {
      set x | x in identities && Strict(x)
    }

    /** Journals and writes the interfaces of a plan; those already owned are skipped. */
    method EnsureSettings(identities: seq<InterfaceIdentity>) returns (ok: bool)
      requires Valid() && Synced() && pending == []
      requires forall i, j :: 0 <= i < j < |identities| ==> identities[i] != identities[j]
      modifies this`pending, world
      ensures Valid()
      ensures ok ==> Synced()
      ensures Identities(pending) <= Elements(identities)
      ensures world.givenUp == old(world.givenUp) && old(world.touched) <= world.touched
      ensures (forall identity :: identity in identities ==> old(Ready(identity))) ==>
                ok && Identities(pending) == old(AllStrict(identities)) - Identities(settings)
      ensures (forall identity :: identity in identities ==> old(Ready(identity))) ==>
                forall identity :: identity in Identities(pending) ==>
                  identity in world.owed && identity in world.values && world.values[identity] == 1
    {
      ghost var strict := AllStrict(identities);
      ghost var ready := ReadyFrom(identities, 0, strict);
      for i := 0 to |identities|
        invariant Valid() && Synced()
        invariant Identities(pending) <= Elements(identities[..i])
        invariant world.givenUp == old(world.givenUp) && old(world.touched) <= world.touched
        invariant ready ==> ReadyFrom(identities, i, strict) && Written(identities[..i], strict)
      {
        NextIdentity(identities, i);
        if identities[i] !in Identities(settings) {
          ok := EnsureOne(identities, i, strict);
          if !ok {
            return;
          }
        }
      }
      assert identities[..|identities|] == identities;
      ok := true;
    }

    /** All of these that need the setting and were not owned before are pending, owed and set. */
    ghost predicate Written(identities: seq<InterfaceIdentity>, strict: set<InterfaceIdentity>)
      reads this, world
    {
      && Identities(pending) == Elements(identities) * strict - Identities(settings)
      && forall identity :: identity in Identities(pending) ==>
           identity in world.owed && identity in world.values && world.values[identity] == 1
    }

    lemma NextIdentity(identities: seq<InterfaceIdentity>, i: nat)
      requires i < |identities|
      ensures Elements(identities[..i + 1]) == Elements(identities[..i]) + {identities[i]}
      ensures Elements(identities[..i + 1]) <= Elements(identities)
    {
    }

    method EnsureOne(identities: seq<InterfaceIdentity>, i: nat, ghost strict: set<InterfaceIdentity>) returns (ok: bool)
      requires Valid() && Synced() && i < |identities| && identities[i] !in Identities(settings)
      requires forall j, k :: 0 <= j < k < |identities| ==> identities[j] != identities[k]
      requires Identities(pending) <= Elements(identities[..i])
      modifies this`pending, world
      ensures Valid() && (ok ==> Synced())
      ensures Identities(pending) <= Elements(identities[..i + 1])
      ensures world.givenUp == old(world.givenUp) && old(world.touched) <= world.touched
      ensures old(ReadyFrom(identities, i, strict) && Written(identities[..i], strict)) ==>
                ok && ReadyFrom(identities, i + 1, strict) && Written(identities[..i + 1], strict)
    {
      ghost var before := pending;
      NextIdentity(identities, i);
      var r, _ := EnsureMark(identities[i]);
      assert Identities(before + [Intent(identities[i])]) == Identities(before) + {identities[i]};
      ok := r.Ok?;
    }

    // ----- Giving back -----

    /** Whoever was not given up and is left alone is not given up now. */
    ghost predicate NoneGivenUp(wasGivenUp: set<InterfaceIdentity>)
      reads world
    {
      forall identity :: world.LeftAlone(identity, wasGivenUp) ==> identity !in world.givenUp
    }

    ghost predicate AllLeftAlone(identities: set<InterfaceIdentity>, wasGivenUp: set<InterfaceIdentity>)
      reads world
    {
      forall identity :: identity in identities ==> world.LeftAlone(identity, wasGivenUp)
    }

    /** Whoever is left alone has the old value, and nothing is reported if that is everybody. */
    ghost predicate GivesBack(receipts: seq<SettingReceipt>, wasGivenUp: set<InterfaceIdentity>, failures: nat)
      reads world
    {
      && NoneGivenUp(wasGivenUp) && (AllLeftAlone(Identities(receipts), wasGivenUp) ==> failures == 0)
      && forall identity :: identity in Identities(receipts) && world.LeftAlone(identity, wasGivenUp) ==> Original(identity)
    }

    ghost predicate Original(identity: InterfaceIdentity)
      reads world
    {
      identity in world.original && identity in world.values && world.values[identity] == world.original[identity]
    }

    /** Restores and spends a list of receipts; the failures are only reported. */
    method RestoreReceipts(receipts: seq<SettingReceipt>) returns (failures: nat)
      requires world.Consistent() && world.Now().HonestReceipts(world.original, receipts)
      modifies world
      ensures world.Consistent() && Later(old(world.Now()), world.Now())
      ensures world.owed == old(world.owed) - Identities(receipts)
      ensures old(world.seen) <= world.seen && OnlyLater(world.original, old(world.Now()), old(world.seen), world.seen)
      ensures failures == 0 ==> world.givenUp == old(world.givenUp)
      ensures forall identity :: identity in Identities(receipts) && world.Undisturbed(identity) ==>
                world.values[identity] == world.original[identity]
      ensures old(world.faults) <= world.faults
              && (world.calm ==> world.faults == old(world.faults) && world.touched == old(world.touched))
      ensures world.faults == old(world.faults) ==> GivesBack(receipts, old(world.givenUp), failures)
      ensures receipts == [] ==> world.values == old(world.values) && world.present == old(world.present)
                                 && world.touched == old(world.touched)
    {
      failures := 0;
      for i := 0 to |receipts|
        invariant world.Consistent() && Later(old(world.Now()), world.Now())
        invariant world.owed == old(world.owed) - Identities(receipts[..i])
        invariant old(world.seen) <= world.seen && OnlyLater(world.original, old(world.Now()), old(world.seen), world.seen)
        invariant failures == 0 ==> world.givenUp == old(world.givenUp)
        invariant old(world.faults) <= world.faults
        invariant world.calm ==> world.faults == old(world.faults) && world.touched == old(world.touched)
        invariant world.faults == old(world.faults) ==>
          NoneGivenUp(old(world.givenUp)) && (AllLeftAlone(Identities(receipts[..i]), old(world.givenUp)) ==> failures == 0)
        invariant i == 0 ==> world.values == old(world.values) && world.present == old(world.present)
                             && world.touched == old(world.touched)
      {
        var receipt := receipts[i];
        assert receipt in receipts;
        assert Identities(receipts[..i + 1]) == Identities(receipts[..i]) + {receipt.identity};
        var failed := RestoreOne(receipt);
        failures := failures + if failed then 1 else 0;
      }
      assert receipts[..|receipts|] == receipts;
    }

    /** Spends one receipt. Only a fault or somebody else's change can make it fail. */
    method RestoreOne(receipt: SettingReceipt) returns (failed: bool)
      requires world.Consistent() && world.Now().Honest(world.original, receipt) && ValidScope(receipt.identity)
      modifies world
      ensures world.Consistent() && Later(old(world.Now()), world.Now())
      ensures world.owed == old(world.owed) - {receipt.identity}
      ensures world.givenUp == old(world.givenUp) + if failed then {receipt.identity} else {}
      ensures old(world.seen) <= world.seen && OnlyLater(world.original, old(world.Now()), old(world.seen), world.seen)
      ensures old(world.faults) <= world.faults
              && (world.calm ==> world.faults == old(world.faults) && world.touched == old(world.touched))
      ensures world.faults == old(world.faults) && world.LeftAlone(receipt.identity, old(world.givenUp)) ==> !failed
    {
      var r, _ := RestoreMark(world, receipt);
      failed := r.Err?;
      if failed {
        world.GiveUp(receipt.identity);
      } else {
        world.Settle(receipt.identity);
      }
    }

    /** Without the pending receipts the journal covers exactly what no pending receipt is about. */
    lemma SettingsAloneCover(s: State)
      requires ValidNow() && s.owed == world.owed && s.committed == settings && s.intents == []
      ensures s.Covered() <==> world.owed !! Identities(pending)
    {
      if world.owed !! Identities(pending) {
        forall identity | identity in world.owed ensures Intent(identity) in settings + [] {
          var r := Intent(identity);
          assert r in world.committed + world.intents;
          assert r in pending ==> r.identity in Identities(pending);
        }
      } else {
        var identity :| identity in world.owed && identity in Identities(pending);
        assert Intent(identity) in settings ==> Intent(identity).identity in Identities(settings);
      }
    }

    /** Before the kernel is touched: give back what was written, then forget the intents. */
    method AbortEarly() returns (failures: nat, repaired: bool)
      requires Valid()
      modifies this`pending, world
      ensures Valid() && settings == old(settings)
      ensures repaired ==> pending == [] && Synced()
      ensures !repaired ==> pending == old(pending)
      ensures old(world.faults) <= world.faults
              && (world.calm ==> world.faults == old(world.faults) && world.touched == old(world.touched))
      ensures world.faults == old(world.faults) ==> repaired && GivesBack(old(pending), old(world.givenUp), failures)
      ensures world.owed == old(world.owed) - Identities(old(pending))
      ensures failures == 0 ==> world.givenUp == old(world.givenUp)
      ensures forall identity :: identity in Identities(old(pending)) && world.Undisturbed(identity) ==>
                world.values[identity] == world.original[identity]
      ensures old(pending) == [] && world.calm ==> world.values == old(world.values) && world.present == old(world.present)
                                                   && world.touched == old(world.touched)
    {
      failures := RestoreReceipts(pending);
      OnlyLaterIsSound(world.original, old(world.Now()), old(world.seen), world.seen);
      LaterIsSound(world.original, old(world.Now()), world.Now());
      repaired := ForgetIntents();
    }

    /** With nothing pending owed any more, the journal may drop the intents. */
    method ForgetIntents() returns (repaired: bool)
      requires Valid() && world.owed !! Identities(pending)
      modifies this`pending, world
      ensures Valid() && world.owed == old(world.owed) && world.givenUp == old(world.givenUp)
      ensures if repaired then pending == [] && Synced() else pending == old(pending)
      ensures forall identity :: world.Undisturbed(identity) ==> old(world.Undisturbed(identity))
      ensures old(world.touched) <= world.touched
      ensures world.faults == old(world.faults) + if repaired then 0 else 1
      ensures world.calm ==> repaired && world.values == old(world.values) && world.present == old(world.present)
                             && world.touched == old(world.touched)
    {
      ghost var before := world.seen;
      repaired := world.Save(settings, []);
      if repaired {
        SettingsAloneCover(world.Now());
        pending := [];
      }
    }

    /**
     * After the kernel transition failed: the journal goes back first and the settings follow. Every state on
     * the way has its receipts if nothing journaled as pending is owed, and otherwise only if saving fails.
     */
    method UndoTransition() returns (failures: nat, repaired: bool)
      requires Valid() && Synced()
      modifies this`pending, world
      ensures ValidNow() && Synced() && settings == old(settings) && old(world.seen) <= world.seen
      ensures pending == if repaired then [] else old(pending)
      ensures world.owed == if repaired then old(world.owed) - Identities(old(pending)) else old(world.owed)
      ensures old(world.owed) !! Identities(old(pending)) ==> AllCovered(world.seen)
      ensures old(world.faults) <= world.faults
              && (world.calm ==> world.faults == old(world.faults) && world.touched == old(world.touched))
      ensures world.faults == old(world.faults) ==> repaired && GivesBack(old(pending), old(world.givenUp), failures)
      ensures !(old(world.owed) !! Identities(old(pending))) && repaired ==>
                exists s :: s in world.seen && Orphans(s, old(world.Now()), world.calm)
      ensures failures == 0 ==> world.givenUp == old(world.givenUp)
    {
      failures := 0;
      repaired := world.Save(settings, []);
      ghost var window, before := world.Now(), world.seen;
      if !repaired {
        return;
      }
      assert window in before;
      failures := RestoreReceipts(pending);
      OnlyLaterIsSound(world.original, window, before, world.seen);
      LaterIsSound(world.original, window, world.Now());
      pending := [];
    }

    /** A state with an interface owed and without its receipt; nobody has changed anything in between if the world is calm. */
    ghost predicate Orphans(s: State, was: State, calm: bool)
      reads this
    {
      && !s.Covered() && s.committed == settings && s.intents == [] && s.owed == was.owed && s.givenUp == was.givenUp
      && (calm ==> s.values == was.values && s.present == was.present && s.touched == was.touched)
    }

    /** The transition committed: its receipts join the committed ones. */
    method Commit() returns (ok: bool)
      requires Valid() && Synced()
      modifies this`settings, this`pending, world
      ensures Valid() && Synced() && world.owed == old(world.owed) && world.givenUp == old(world.givenUp)
      ensures if ok then settings == old(settings) + old(pending) && pending == []
              else settings == old(settings) && pending == old(pending)
    {
      ok := world.Save(settings + pending, []);
      if ok {
        settings, pending := settings + pending, [];
      }
    }

    /** Recovery restores what the interrupted transition wrote before it forgets the intents. */
    method Recover() returns (failures: nat, repaired: bool)
      requires Valid()
      modifies this`pending, world
      ensures Valid() && settings == old(settings)
      ensures repaired ==> pending == [] && Synced()
      ensures old(world.faults) <= world.faults
              && (world.calm ==> world.faults == old(world.faults) && world.touched == old(world.touched))
      ensures world.faults == old(world.faults) ==> repaired && GivesBack(old(pending), old(world.givenUp), failures)
      ensures world.owed == old(world.owed) - Identities(old(pending))
      ensures failures == 0 ==> world.givenUp == old(world.givenUp)
      ensures forall identity :: identity in Identities(old(pending)) && world.Undisturbed(identity) ==>
                world.values[identity] == world.original[identity]
    {
      failures, repaired := AbortEarly();
    }

    /** Cleanup gives every setting back and clears the journal. An undisturbed interface then has its old value. */
    method Cleanup() returns (failures: nat, cleared: bool)
      requires Valid() && pending == []
      modifies this`settings, world
      ensures Valid()
      ensures cleared ==> settings == [] && Synced()
      ensures old(world.touched) <= world.touched
      ensures old(world.faults) <= world.faults
              && (world.calm ==> world.faults == old(world.faults) && world.touched == old(world.touched))
      ensures world.faults == old(world.faults) ==> cleared && GivesBack(old(settings), old(world.givenUp), failures)
      ensures world.owed == {}
      ensures forall identity :: world.Undisturbed(identity) ==> world.values[identity] == world.original[identity]
      ensures failures == 0 ==> world.givenUp == old(world.givenUp)
    {
      failures := RestoreReceipts(settings);
      OnlyLaterIsSound(world.original, old(world.Now()), old(world.seen), world.seen);
      LaterIsSound(world.original, old(world.Now()), world.Now());
      assert world.owed == {} by {
        forall identity | identity in old(world.owed) ensures identity in Identities(settings) {
          assert Intent(identity) in world.committed + world.intents;
        }
      }
      cleared := world.Save([], []);
      if cleared {
        settings := [];
      }
    }
  }

  // ----- Across a crash -----

  /** Any state with its receipts, wherever the crash came: recovery and cleanup give every setting back. */
  method RecoverAfterCrash(s: State, filtering: Filtering, original: map<InterfaceIdentity, nat>, calm: bool)
    returns (world: Interfaces, repaired: bool, failures: nat)
    requires s.Sound(original) && s.Covered()
    ensures world.original == original && calm == world.calm && world.Consistent()
    ensures AllSound(original, world.seen) && AllCovered(world.seen)
    ensures repaired ==> world.owed == {} && world.committed == [] && world.intents == []
    ensures repaired ==> forall identity :: world.Undisturbed(identity) ==> world.values[identity] == world.original[identity]
    ensures failures == 0 ==> world.givenUp == s.givenUp
    ensures world.faults == 0 ==> repaired
    ensures world.faults == 0 ==> forall identity :: s.Undisturbed(original, identity) && identity !in world.touched ==>
              identity in world.values && world.values[identity] == original[identity]
    ensures calm ==> world.faults == 0 && world.touched == s.touched
  {
    world := new Interfaces(s, filtering, original, calm);
    var keeper := new SettingsKeeper.Resume(world);
    failures, repaired := keeper.Recover();
    if repaired {
      var more;
      more, repaired := keeper.Cleanup();
      failures := failures + more;
    }
  }

  /**
   * An aborted first transition in a calm world. A crash right after its journal is repaired leaves the interface
   * with RouteLane's value and no receipt: the next helper's recovery and cleanup have nothing to give back.
   */
  method OrphanedSetting(eth: InterfaceIdentity) returns (first: Interfaces, second: Interfaces)
    requires ValidScope(eth)
    ensures first.calm && first.origin == Pristine(eth) && first.original == map[eth := 0]
    ensures Journaled(Pristine(eth), eth) in first.seen && Switched(Journaled(Pristine(eth), eth), eth) in first.seen
    ensures Orphan(eth) in first.seen && !Orphan(eth).Covered()
    ensures second.calm && second.origin == Orphan(eth) && second.faults == 0
    ensures second.original == map[eth := 0] && second.touched == {} && second.committed + second.intents == []
    ensures eth in second.values && second.values[eth] == 1
  {
    var keeper := SwitchOn(eth);
    first := keeper.world;
    UndoOrphans(keeper, eth);
    second := StartOver(eth);
  }

  method SwitchOn(eth: InterfaceIdentity) returns (keeper: SettingsKeeper)
    requires ValidScope(eth)
    ensures fresh(keeper) && fresh(keeper.world) && keeper.Valid() && keeper.Synced()
    ensures keeper.world.calm && keeper.world.origin == Pristine(eth) && keeper.world.original == map[eth := 0]
    ensures keeper.settings == [] && keeper.pending == [Intent(eth)]
    ensures keeper.world.Now() == Orphan(eth).(intents := [Intent(eth)])
    ensures Journaled(Pristine(eth), eth) in keeper.world.seen && Switched(Journaled(Pristine(eth), eth), eth) in keeper.world.seen
  {
    PristineIsSound(eth);
    var world := new Interfaces(Pristine(eth), StrictOn(eth.name), map[eth := 0], true);
    keeper := new SettingsKeeper.Resume(world);
    var r, _ := keeper.EnsureMark(eth);
    assert Switched(Journaled(Pristine(eth), eth), eth) == Orphan(eth).(intents := [Intent(eth)]);
  }

  lemma PristineIsSound(eth: InterfaceIdentity)
    ensures Pristine(eth).Sound(map[eth := 0]) && Pristine(eth).Covered()
  {
  }

  /** Strict reverse-path filtering on one interface. */
  function StrictOn(name: string): Filtering {
    Filtering(map[ALL_INTERFACES := 0, name := 1], 0)
  }

  function Pristine(eth: InterfaceIdentity): State {
    State(map[eth.name := eth], map[eth := 0], [], [], {}, {}, {})
  }

  function Orphan(eth: InterfaceIdentity): State {
    Pristine(eth).(values := map[eth := 1], owed := {eth})
  }

  method UndoOrphans(keeper: SettingsKeeper, eth: InterfaceIdentity)
    requires keeper.Valid() && keeper.Synced() && keeper.world.calm && keeper.settings == [] && keeper.pending == [Intent(eth)]
    requires keeper.world.Now() == Orphan(eth).(intents := [Intent(eth)])
    modifies keeper, keeper.world
    ensures old(keeper.world.seen) <= keeper.world.seen && Orphan(eth) in keeper.world.seen
  {
    ghost var written := keeper.world.Now();
    assert Intent(eth) in keeper.pending && eth in Identities(keeper.pending);
    var _, _ := keeper.UndoTransition();
    ghost var s :| s in keeper.world.seen && keeper.Orphans(s, written, true);
    assert s == Orphan(eth);
  }

  method StartOver(eth: InterfaceIdentity) returns (world: Interfaces)
    ensures world.calm && world.origin == Orphan(eth) && world.faults == 0
    ensures world.original == map[eth := 0] && world.touched == {} && world.committed + world.intents == []
    ensures eth in world.values && world.values[eth] == 1
  {
    world := new Interfaces(Orphan(eth), StrictOn(eth.name), map[eth := 0], true);
    var keeper := new SettingsKeeper.Resume(world);
    var _ := keeper.RestoreReceipts(keeper.pending);
    var _ := keeper.RestoreReceipts(keeper.settings);
    var _ := world.Save([], []);
  }
}

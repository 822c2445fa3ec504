/**
  The oscilloscope face (oscilloscope.cpp, `session`, `pushChannel`, the configure verbs,
  `beginCapture`, `finishCapture`, `armSingle`, `awaitAcquisition`, `capture` and `safe`) over a box
  whose unit the other face, too, may open and close. A record keeps which block it was read from,
  and a block what the unit had been told when it was run.
*/
module ScopeSession {
  import opened Optional
  import opened ScopeUnit
  import Capture

  datatype Pending = Pending(id: nat, enabled: seq<bool>)

  datatype Record = Record(block: Option<Block>, scales: seq<Option<Scale>>) | Injected

  function ScalesOf(enabled: seq<bool>, applied: seq<Option<Scale>>): (scales: seq<Option<Scale>>)
    requires |enabled| == |applied| == CHANNELS
    ensures |scales| == CHANNELS
    ensures forall n :: 0 <= n < CHANNELS ==> scales[n] == if enabled[n] then applied[n] else None
  {
    [if enabled[0] then applied[0] else None, if enabled[1] then applied[1] else None]
  }

  /** The input a trigger is looked for on, counted from 0: the one named, or the first that is on. */
  function Source(trigger: Trigger, applied: seq<Option<Scale>>): int
    requires |applied| == CHANNELS
  {
    if trigger.source.Some? then trigger.source.value - 1 else if applied[0].Some? then 0 else 1
  }

  /** The conversion by which its level becomes counts. */
  function LevelOf(trigger: Trigger, applied: seq<Option<Scale>>): Option<Level>
    requires |applied| == CHANNELS
  {
    var n := Source(trigger, applied);
    if 0 <= n < CHANNELS && applied[n].Some? then Some(Level(n, applied[n].value)) else None
  }

  /** The level is for the input named, counted from 1, or else the first that is on, and set by its conversion. */
  predicate TriggeredOn(trigger: Trigger, applied: seq<Option<Scale>>, level: Option<Level>) {
    && level.Some? && level.value.source < |applied| && applied[level.value.source] == Some(level.value.scale)
    && (trigger.source.Some? ==> level.value.source + 1 == trigger.source.value)
    && (trigger.source.None? ==> forall n :: 0 <= n < level.value.source ==> applied[n].None?)
  }

  lemma LevelIsTriggeredOn(trigger: Trigger, applied: seq<Option<Scale>>)
    requires |applied| == CHANNELS && LevelOf(trigger, applied).Some?
    ensures TriggeredOn(trigger, applied, LevelOf(trigger, applied))
  {}

  /** The trigger level became counts by the conversion the unit was told for its input. */
  predicate LevelAsTold(b: Block) {
    b.level.Some? ==>
      b.level.value.source < |b.told| && ScaleTold(b.told[b.level.value.source]) == Some(b.level.value.scale)
  }

  /** So did the samples become volts. */
  predicate ReadAsRun(record: Record) {
    && record.Record? && record.block.Some? && |record.block.value.told| == |record.scales| == CHANNELS
    && (forall n :: 0 <= n < CHANNELS ==> record.scales[n] == ScaleTold(record.block.value.told[n]))
    && LevelAsTold(record.block.value)
  }

  /** An enabled channel has no scale to read its samples by. */
  predicate ScaleLost(enabled: seq<bool>, applied: seq<Option<Scale>>)
    requires |enabled| == |applied| == CHANNELS
  {
    exists n :: 0 <= n < CHANNELS && enabled[n] && applied[n].None?
  }

  /** How a verb ends; Undefined reads the scale of a channel that has none. */
  datatype Outcome = Done | Refused | Threw | Undefined

  datatype Finished = Captured(record: Record) | TimedOut | Raised | NoScale

  predicate Positive(settings: Settings) {
    && |settings.channels| == CHANNELS
    && forall n :: 0 <= n < CHANNELS ==> settings.channels[n].Attenuation() > 0.0
  }

  /** Some channel asks for more than the largest range. */
  predicate OutOfRange(settings: Settings)
    requires Positive(settings)
  {
    exists n :: 0 <= n < CHANNELS && CalledFor(settings.channels[n]).None?
  }

  function FullPush(c: Channel): nat {
    if c.range.None? then 0 else if c.limited.Some? then 3 else 2
  }

  /** How many calls setting up a unit just opened takes when all are answered OK. */
  function SetUpCalls(channels: seq<Channel>): nat {
    if channels == [] then 0 else SetUpCalls(channels[..|channels| - 1]) + FullPush(channels[|channels| - 1])
  }

  /** How many a Setup of one channel takes that opens the unit. */
  function FreshSetUp(settings: Settings, n: nat): nat
    requires n < |settings.channels|
  {
    OPENING_CALLS + SetUpCalls(settings.channels) + FullPush(settings.channels[n])
  }

  lemma {:induction false} SetUpCallsGrow(channels: seq<Channel>, n: nat)
    requires n <= |channels|
    ensures SetUpCalls(channels[..n]) <= SetUpCalls(channels)
    ensures n < |channels| ==> SetUpCalls(channels[..n + 1]) == SetUpCalls(channels[..n]) + FullPush(channels[n])
    decreases |channels|
  {
    if n < |channels| {
      assert channels[..n + 1][..n] == channels[..n];
      var front := channels[..|channels| - 1];
      SetUpCallsGrow(front, n);
      assert front[..n] == channels[..n];
    } else {
      assert channels[..n] == channels;
    }
  }

  // ---------------------------------------------------------------- what a block has to do with the settings

  predicate Sendable(c: Option<Channel>) {
    c.Some? ==> c.value.Attenuation() > 0.0 && CalledFor(c.value).Some?
  }

  /** A channel as it was last told, against what it is set up as now. */
  predicate ToldAsSet(pushed: Pushed, c: Channel)
    requires c.Attenuation() > 0.0 && Sendable(pushed.channel)
  {
    CalledFor(c) == Some(ToldBy(pushed.channel)) && Filtered(c, pushed.limited)
  }

  /**
    What has been made of the settings: each channel's last push, and its last that succeeded whole,
    the resolution last set, and what is out of step because a Setup of it threw.
  */
  datatype Books = Books(
    pushed: seq<Pushed>, whole: seq<Option<Channel>>, bits: nat, stale: set<nat>, staleBits: bool)

  const NOTHING_TOLD: Books := Books([Pushed(None, None), Pushed(None, None)], [None, None], 0, {}, false)

  predicate SentWell(pushed: seq<Pushed>, whole: seq<Option<Channel>>) {
    && |pushed| == |whole| == CHANNELS
    && forall n :: 0 <= n < CHANNELS ==> Sendable(pushed[n].channel) && Sendable(whole[n])
  }

  predicate WellKept(k: Books) {
    SentWell(k.pushed, k.whole)
  }

  /** The conversions are those of the last pushes that succeeded whole. */
  predicate Converts(scales: seq<Option<Scale>>, whole: seq<Option<Channel>>) {
    && |scales| == |whole| == CHANNELS
    && forall n :: 0 <= n < CHANNELS ==> Sendable(whole[n]) && scales[n] == ScaleTold(ToldBy(whole[n]))
  }

  /** Only a channel set up with a range has been told anything, and no range is ever taken back. */
  predicate KeptFor(k: Books, s: Settings, applied: seq<Option<Scale>>)
    requires Positive(s)
  {
    && WellKept(k) && Converts(applied, k.whole)
    && forall n :: 0 <= n < CHANNELS && k.pushed[n].channel.Some? ==> s.channels[n].range.Some?
  }

  /** A unit has been told what these pushes say. */
  predicate Telling(pushed: seq<Pushed>, told: seq<Told>, filters: seq<Option<bool>>) {
    && |pushed| == |told| == |filters| == CHANNELS
    && forall n :: 0 <= n < CHANNELS ==>
         Sendable(pushed[n].channel) && told[n] == ToldBy(pushed[n].channel) && filters[n] == pushed[n].limited
  }

  predicate InStepAt(pushed: Pushed, c: Channel, scale: Option<Scale>)
    requires Sendable(pushed.channel) && c.Attenuation() > 0.0
  {
    ToldAsSet(pushed, c) && scale == ScaleTold(ToldBy(pushed.channel))
  }

  /** Unless a Setup of it threw, each channel was told as it is set up, and is read so. */
  predicate InStep(k: Books, s: Settings, applied: seq<Option<Scale>>)
    requires WellKept(k) && Positive(s) && |applied| == CHANNELS
  {
    && (!k.staleBits && s.bits.Some? ==> k.bits == s.bits.value)
    && forall n :: 0 <= n < CHANNELS && n !in k.stale ==> InStepAt(k.pushed[n], s.channels[n], applied[n])
  }

  /**
    A block of the settings' trigger and window, on a unit told what the books say. Channels not
    stale were told as they are set up.
  */
  predicate BlockOf(b: Block, s: Settings, k: Books)
    requires Positive(s) && WellKept(k)
  {
    && |b.wasAc| == CHANNELS && Telling(k.pushed, b.told, b.filters)
    && b.trigger == s.trigger && b.window == s.window && b.bits == k.bits
    && (!k.staleBits && s.bits.Some? ==> k.bits == s.bits.value)
    && forall n :: 0 <= n < CHANNELS && n !in k.stale ==> ToldAsSet(k.pushed[n], s.channels[n])
  }

  /** Every channel, and the resolution, was last told as it is set up. */
  predicate ToldAllAsSet(s: Settings, k: Books)
    requires Positive(s) && WellKept(k)
  {
    && (k.staleBits && s.bits.Some? ==> k.bits == s.bits.value)
    && forall n :: 0 <= n < CHANNELS && n in k.stale ==> ToldAsSet(k.pushed[n], s.channels[n])
  }

  /** Such a block was run as the settings ask exactly when each channel's, and the resolution's, last push asked the same. */
  lemma TakenAsAskedExactly(b: Block, s: Settings, k: Books)
    requires Positive(s) && WellKept(k) && BlockOf(b, s, k)
    ensures TakenAs(b, s) <==> ToldAllAsSet(s, k)
  {
    hide CalledFor, ToldBy, Filtered;
    assert forall n :: 0 <= n < CHANNELS ==>
             (ToldAsSet(k.pushed[n], s.channels[n]) <==>
                CalledFor(s.channels[n]) == Some(b.told[n]) && Filtered(s.channels[n], b.filters[n]));
  }

  /**
    A record of these settings: its block, and the conversions its volts, and the block's trigger
    level, were read by, which are those of the last pushes that succeeded whole.
  */
  predicate RecordOf(record: Record, s: Settings, k: Books)
    requires Positive(s) && WellKept(k)
  {
    && record.Record? && record.block.Some? && Converts(record.scales, k.whole)
    && BlockOf(record.block.value, s, k)
    && (record.block.value.level.Some? ==> record.block.value.level == LevelOf(s.trigger, record.scales))
    && forall n :: 0 <= n < CHANNELS && n !in k.stale ==> record.scales[n] == ScaleTold(record.block.value.told[n])
  }

  /** Of a channel whose last Setup did not throw, the block was run as serves what is set up. */
  lemma RecordServes(record: Record, s: Settings, k: Books)
    requires Positive(s) && WellKept(k) && RecordOf(record, s, k)
    ensures forall n :: 0 <= n < CHANNELS && n !in k.stale ==>
              && Serves(record.block.value.told[n], s.channels[n])
              && (s.channels[n].range.Some? && s.channels[n].limited.Some? ==>
                    record.block.value.filters[n] == s.channels[n].limited)
  {
    hide CalledFor, Serves;
    forall n | 0 <= n < CHANNELS && n !in k.stale
      ensures Serves(record.block.value.told[n], s.channels[n])
      ensures s.channels[n].range.Some? && s.channels[n].limited.Some? ==>
                record.block.value.filters[n] == s.channels[n].limited
    {
      assert ToldAsSet(k.pushed[n], s.channels[n]);
      CalledForServes(s.channels[n]);
    }
  }

  lemma RecordTakenExactly(record: Record, s: Settings, k: Books)
    requires Positive(s) && WellKept(k) && RecordOf(record, s, k)
    ensures TakenAs(record.block.value, s) <==> ToldAllAsSet(s, k)
  {
    hide CalledFor;
    TakenAsAskedExactly(record.block.value, s, k);
  }

  /** Of the channels whose last Setup threw, the last push that succeeded whole gave the last conversion told. */
  predicate ToldWhole(k: Books)
    requires WellKept(k)
  {
    forall n :: 0 <= n < CHANNELS && n in k.stale ==>
      ScaleTold(ToldBy(k.whole[n])) == ScaleTold(ToldBy(k.pushed[n].channel))
  }

  /** Such a record is read as the unit was told for its block exactly where no push was told and then not finished. */
  lemma RecordReadExactly(record: Record, s: Settings, k: Books)
    requires Positive(s) && WellKept(k) && RecordOf(record, s, k)
    ensures ReadAsRun(record) <==> ToldWhole(k)
  {
    hide CalledFor, ToldBy, ToldAsSet;
  }

  /** The books still hold, for the enabled channels and no other, the conversions told for the block. */
  predicate StillRead(b: Block, enabled: seq<bool>, k: Books)
    requires WellKept(k) && |b.told| == |enabled| == CHANNELS
  {
    forall n :: 0 <= n < CHANNELS ==>
      ScaleTold(b.told[n]) == if enabled[n] then ScaleTold(ToldBy(k.whole[n])) else None
  }

  /** A block read by the conversions in use at the time is read as it was run exactly where they are still the same. */
  lemma StillReadExactly(b: Block, enabled: seq<bool>, applied: seq<Option<Scale>>, k: Books)
    requires WellKept(k) && Converts(applied, k.whole) && |b.told| == |enabled| == CHANNELS
    ensures ReadAsRun(Record(Some(b), ScalesOf(enabled, applied))) <==> StillRead(b, enabled, k) && LevelAsTold(b)
  {
    hide ToldBy, ScaleTold, Sendable, LevelAsTold;
  }

  /** A block run under these settings, as a unit is told, for the channels that are applied. */
  predicate Fits(b: Option<Block>, enabled: seq<bool>, s: Settings, applied: seq<Option<Scale>>,
                 bits: nat, told: seq<Told>, filters: seq<Option<bool>>)
  {
    && |enabled| == |applied| == CHANNELS && b.Some? && b.value.trigger == s.trigger && b.value.window == s.window
    && b.value.bits == bits && b.value.told == told && b.value.filters == filters && |b.value.wasAc| == CHANNELS
    && (b.value.level.Some? ==> b.value.level == LevelOf(s.trigger, applied))
    && forall n :: 0 <= n < CHANNELS ==> enabled[n] == applied[n].Some?
  }

  /** A block just run under the settings in force, on a unit told what the books say. */
  lemma BlockFits(b: Block, enabled: seq<bool>, s: Settings, applied: seq<Option<Scale>>, k: Books)
    requires Positive(s) && KeptFor(k, s, applied) && InStep(k, s, applied) && Telling(k.pushed, b.told, b.filters)
    requires b.trigger == s.trigger && b.window == s.window && b.bits == k.bits && |b.wasAc| == CHANNELS
    requires b.level == None || b.level == LevelOf(s.trigger, applied)
    requires |enabled| == |applied| == CHANNELS
    requires forall n :: 0 <= n < CHANNELS ==> enabled[n] == applied[n].Some?
    ensures BlockOf(b, s, k) && Fits(Some(b), enabled, s, applied, b.bits, b.told, b.filters)
  {
    hide ToldAsSet, Telling, SentWell, Converts;
  }

  /** A block run under the settings in force, read by the conversions now applied. */
  lemma RecordFits(b: Option<Block>, enabled: seq<bool>, s: Settings, applied: seq<Option<Scale>>, k: Books,
                   told: seq<Told>, filters: seq<Option<bool>>)
    requires Positive(s) && KeptFor(k, s, applied) && InStep(k, s, applied) && Telling(k.pushed, told, filters)
    requires |enabled| == CHANNELS && Fits(b, enabled, s, applied, k.bits, told, filters)
    ensures RecordOf(Record(b, ScalesOf(enabled, applied)), s, k)
  {
    hide CalledFor, ToldBy, Filtered;
    assert ScalesOf(enabled, applied) == applied;
  }

  /** The books after one channel has been pushed, from the `from`-th call on. */
  function Entered(k: Books, n: nat, c: Channel, answers: nat -> bool, from: nat): Books
    requires n < |k.pushed| == |k.whole| && c.Attenuation() > 0.0
  {
    k.(pushed := k.pushed[n := PushedAfter(k.pushed[n], c, answers, from)],
       whole := k.whole[n := WholeAfter(k.whole[n], c, answers, from)])
  }

  /** The conversions after it, if it `succeeds`. */
  function ScalesAfter(scales: seq<Option<Scale>>, n: nat, c: Channel, succeeds: bool): seq<Option<Scale>>
    requires n < |scales| && c.Attenuation() > 0.0 && (succeeds ==> CalledFor(c).Some?)
  {
    if c.range.None? then scales[n := None]
    else if succeeds then scales[n := ScaleTold(CalledFor(c).value)]
    else scales
  }

  /** After a push the conversions are still those of the pushes that succeeded whole, */
  lemma EnteredKept(k: Books, s: Settings, scales: seq<Option<Scale>>, n: nat, answers: nat -> bool, from: nat)
    requires Positive(s) && n < CHANNELS && KeptFor(k, s, scales)
    ensures
      var c := s.channels[n];
      var succeeds, after := PushSucceeds(c, answers, from), Entered(k, n, c, answers, from);
      && (succeeds ==> CalledFor(c).Some?) && KeptFor(after, s, ScalesAfter(scales, n, c, succeeds))
      && (succeeds ==> InStepAt(after.pushed[n], c, ScalesAfter(scales, n, c, succeeds)[n]))
  {
    var c := s.channels[n];
    var p, w := PushedAfter(k.pushed[n], c, answers, from), WholeAfter(k.whole[n], c, answers, from);
    EnteredAt(k.pushed[n], k.whole[n], c, answers, from);
    hide CalledFor, PushSucceeds, PushTells, PushedAfter, WholeAfter, ToldBy, ScaleTold, Sendable, ToldAsSet;
    PutKept(k, s, scales, n, p, w, if w.None? then None else ScaleTold(ToldBy(w)));
  }

  lemma PutKept(k: Books, s: Settings, scales: seq<Option<Scale>>, n: nat, p: Pushed, w: Option<Channel>, scale: Option<Scale>)
    requires Positive(s) && n < CHANNELS && KeptFor(k, s, scales)
    requires Sendable(p.channel) && Sendable(w) && scale == ScaleTold(ToldBy(w))
    requires p.channel.Some? ==> s.channels[n].range.Some?
    ensures KeptFor(k.(pushed := k.pushed[n := p], whole := k.whole[n := w]), s, scales[n := scale])
  {
    hide ToldBy, ScaleTold, Sendable;
  }

  /** and the unit is still told what the books say. */
  lemma EnteredTold(k: Books, c: Channel, n: nat, answers: nat -> bool, from: nat, told: seq<Told>, filters: seq<Option<bool>>)
    requires WellKept(k) && n < CHANNELS && Telling(k.pushed, told, filters)
    requires c.Attenuation() > 0.0 && (k.pushed[n].channel.Some? ==> c.range.Some?)
    ensures
      var succeeds, tells := PushSucceeds(c, answers, from), PushTells(c, answers, from);
      && (tells ==> CalledFor(c).Some?)
      && Telling(Entered(k, n, c, answers, from).pushed, if tells then told[n := CalledFor(c).value] else told,
                 if succeeds && c.range.Some? && c.limited.Some? then filters[n := c.limited] else filters)
  {
    EnteredAt(k.pushed[n], k.whole[n], c, answers, from);
    hide CalledFor, PushSucceeds, PushTells, PushedAfter, WholeAfter, ToldBy, ScaleTold, Sendable, ToldAsSet;
  }

  lemma EnteredAt(p: Pushed, w: Option<Channel>, c: Channel, answers: nat -> bool, from: nat)
    requires c.Attenuation() > 0.0 && Sendable(p.channel) && Sendable(w) && (p.channel.Some? ==> c.range.Some?)
    ensures
      var after, whole := PushedAfter(p, c, answers, from), WholeAfter(w, c, answers, from);
      var succeeds, tells := PushSucceeds(c, answers, from), PushTells(c, answers, from);
      && (succeeds || tells ==> CalledFor(c).Some?) && Sendable(after.channel) && Sendable(whole)
      && (after.channel.Some? ==> c.range.Some?)
      && ToldBy(after.channel) == (if tells then CalledFor(c).value else ToldBy(p.channel))
      && after.limited == (if succeeds && c.range.Some? && c.limited.Some? then c.limited else p.limited)
      && ScaleTold(ToldBy(whole)) == (if c.range.None? then None
                                      else if succeeds then ScaleTold(CalledFor(c).value) else ScaleTold(ToldBy(w)))
      && (succeeds ==> ToldAsSet(after, c) && ScaleTold(ToldBy(whole)) == ScaleTold(ToldBy(after.channel)))
  {
    NothingCalledFor(c);
    hide CalledFor;
  }

  /** A push fails only for a range too large or an answer that is not OK; with every answer OK its length is known. */
  lemma PushStep(c: Channel, answers: nat -> bool, k: nat)
    requires c.Attenuation() > 0.0
    ensures PushSucceeds(c, answers, k) ==> CalledFor(c).Some? && (c.range.None? || PushTells(c, answers, k))
    ensures !PushSucceeds(c, answers, k) ==> CalledFor(c).None? || !AllYes(answers, k, k + PushCalls(c, answers, k))
    ensures AllYes(answers, k, k + FullPush(c)) && CalledFor(c).Some? ==>
              PushSucceeds(c, answers, k) && PushCalls(c, answers, k) == FullPush(c)
    ensures PushCalls(c, answers, k) <= FullPush(c)
  {
    assert c.range.None? ==> CalledFor(c) == Some(Untold);
    hide CalledFor;
  }

  class Oscilloscope {
    const box: Box
    const simulated: bool
    var settings: Settings
    var appliedTo: nat
    var applied: seq<Option<Scale>>
    var couplingChanged: bool
    var pending: Option<Pending>
    var held: Option<Record>
    var armed: bool
    var completed: bool
    ghost var books: Books
    ghost var armedWith: Settings                // in force at the last Arm
    ghost var armedBlock: Option<Block>          // the block it started
    ghost var setUp: bool                        // a Setup since
    ghost var measured: bool                     // a fresh block for a Measure since
    ghost var heldOwn: bool                      // the record in hand is of the block it was armed with
    ghost var heldSetUp: bool                    // ... and was awaited after a Setup

    constructor (box: Box, simulated: bool)
      requires box.Valid() && box.unit == null
      ensures Valid() && this.box == box && this.simulated == simulated
      ensures pending.None? && held.None? && !armed && appliedTo == 0 && !couplingChanged
      ensures settings == Settings(None, [BLANK, BLANK], Trigger(None, None, None, None), Window(None, None, None, None))
    {
      this.box, this.simulated := box, simulated;
      settings := Settings(None, [BLANK, BLANK], Trigger(None, None, None, None), Window(None, None, None, None));
      armedWith := Settings(None, [BLANK, BLANK], Trigger(None, None, None, None), Window(None, None, None, None));
      appliedTo, applied, couplingChanged := 0, [None, None], false;
      pending, held, armed, completed := None, None, false, false;
      books, armedBlock := NOTHING_TOLD, None;
      setUp, measured, heldOwn, heldSetUp := false, false, false, false;
    }

    /** The box's unit is the one this face has set up. */
    ghost predicate Current()
      reads `appliedTo, box`unit
    {
      box.unit != null && box.unit.generation == appliedTo
    }

    /** The block in flight is the unit's last one, into its own buffers. */
    ghost predicate InFlight(unit: Unit)
      reads `pending, `armedBlock, unit`block, unit`target
      requires pending.Some?
    {
      && armedBlock.Some? && unit.block == armedBlock && armedBlock.value.id == pending.value.id
      && unit.target == Some(pending.value.id)
    }

    /** It was run under the settings in force, as the unit is still told, for the channels still applied. */
    ghost predicate StillSo(unit: Unit)
      reads `pending, `armedBlock, `armedWith, `settings, `applied, unit`bits, unit`told, unit`filters
      requires pending.Some?
    {
      && armedWith == settings
      && Fits(armedBlock, pending.value.enabled, settings, applied, unit.bits, unit.told, unit.filters)
    }

    /** It was run as the settings at Arm asked. */
    ghost predicate AsAsked()
      reads `armedBlock, `armedWith
    {
      && armedBlock.Some? && |armedBlock.value.told| == |armedBlock.value.filters| == CHANNELS && Positive(armedWith)
      && TakenAs(armedBlock.value, armedWith)
    }

    ghost predicate Shaped()
      reads `settings, `applied, `books
    {
      Positive(settings) && |applied| == CHANNELS && WellKept(books) && KeptFor(books, settings, applied)
    }

    ghost predicate Flags()
      reads `completed, `held, `armed, `pending, `armedBlock, box`blocks
    {
      && (completed <==> held.Some?) && (armed ==> held.None?)
      && (armed && !simulated <==> pending.Some?)
      && (pending.Some? ==>
            && |pending.value.enabled| == CHANNELS && pending.value.id <= box.blocks
            && armedBlock.Some? && armedBlock.value.id == pending.value.id
            && |armedBlock.value.told| == |armedBlock.value.filters| == CHANNELS)
    }

    /** The books are this unit's. */
    ghost predicate Linked(unit: Unit)
      reads `settings, `applied, `books, unit`bits, unit`told, unit`filters
      requires Shaped()
    {
      unit.bits == books.bits && Telling(books.pushed, unit.told, unit.filters) && InStep(books, settings, applied)
    }

    /** The block in flight is there, and as it was armed, unless a Measure or a Setup has come in between. */
    ghost predicate Underway(unit: Unit)
      reads `settings, `applied, `pending, `armedBlock, `armedWith, `measured, `setUp
      reads unit`bits, unit`told, unit`filters, unit`block, unit`target
    {
      pending.Some? ==> (measured || InFlight(unit)) && (setUp || StillSo(unit))
    }

    ghost predicate HeldWell()
      reads `held, `heldOwn, `heldSetUp, `settings, `books
      requires Positive(settings) && WellKept(books)
    {
      held.Some? && !simulated && heldOwn && !heldSetUp ==> RecordOf(held.value, settings, books)
    }

    ghost predicate Valid()
      reads this, box, box.unit
    {
      && box.Valid() && Shaped() && Flags() && HeldWell() && appliedTo <= box.generations
      && (box.unit != null ==>
            if box.unit.generation == appliedTo then Linked(box.unit) && Underway(box.unit)
            else box.unit.Untouched())
    }

    // -------------------------------------------------------------- the session

    method ResetCapture()
      requires Positive(settings)
      modifies `pending, `held, `armed, `completed, `applied, `appliedTo, `books
      ensures pending.None? && held.None? && !armed && !completed && appliedTo == 0
      ensures Shaped() && books == NOTHING_TOLD
    {
      pending, held, armed, completed := None, None, false, false;
      applied, appliedTo, books := [None, None], 0, NOTHING_TOLD;
    }

    /** What is in hand no longer is; what is in flight still is. */
    method Invalidate()
      modifies `held, `completed
      ensures held.None? && !completed
    {
      held, completed := None, false;
    }

    /** One channel, as it is set up: every way out, and what the unit and the face know after it. */
    method PushChannel(n: nat) returns (ok: bool)
      requires Positive(settings) && |applied| == CHANNELS && n < CHANNELS && box.unit != null && box.unit.Shaped()
      modifies `applied, box`calls, box.unit`told, box.unit`filters
      ensures |applied| == CHANNELS && box.unit.Shaped()
      ensures
        var c, k := settings.channels[n], old(box.calls);
        && box.calls == k + PushCalls(c, box.answers, k) && ok == PushSucceeds(c, box.answers, k)
        && applied == (if c.range.None? then old(applied)[n := None]
                       else if ok then old(applied)[n := ScaleTold(CalledFor(c).value)]
                       else old(applied))
        && box.unit.told == (if PushTells(c, box.answers, k) then old(box.unit.told)[n := CalledFor(c).value]
                             else old(box.unit.told))
        && box.unit.filters == (if ok && c.range.Some? && c.limited.Some? then old(box.unit.filters)[n := c.limited]
                                else old(box.unit.filters))
        && (PushTells(c, box.answers, k) ==> Serves(box.unit.told[n], c))
    {
      hide CalledFor, Serves;
      var c := settings.channels[n];
      if c.range.None? {
        applied := applied[n := None];
        return true;
      }
      var wanted := Wanted(c);
      if wanted.None? {
        return false;
      }
      CalledForServes(c);
      ok := Tell(n, wanted.value);
      if !ok {
        return;
      }
      if c.limited.Some? {
        // SetBandwidthFilter.
        ok := box.Ask();
        if !ok {
          return;
        }
        box.unit.filters := box.unit.filters[n := c.limited];
      }
      applied := applied[n := ScaleTold(wanted.value)];
    }

    /** What SetChannel is to say of a channel with a range, unless no range is large enough. */
    method Wanted(c: Channel) returns (t: Option<Told>)
      requires c.Attenuation() > 0.0 && c.range.Some?
      ensures t == CalledFor(c)
    {
      var index := Capture.RangeIndexFor(c.range.value / c.Attenuation());
      if index.None? {
        return None;
      }
      var scale := Scale(Capture.RANGES[index.value], -c.Offset() / c.Attenuation(), c.Attenuation());
      return Some(if c.Shown() then On(scale, c.Ac()) else Off(c.Ac()));
    }

    /** A channel whose last Setup did not throw is served by what the unit was told of it. */
    lemma ServedAsSetUp(n: nat)
      requires Valid() && Current() && n < CHANNELS && n !in books.stale
      ensures box.unit.Shaped() && Serves(box.unit.told[n], settings.channels[n])
      ensures settings.channels[n].range.Some? && settings.channels[n].limited.Some? ==>
                box.unit.filters[n] == settings.channels[n].limited
    {
      hide CalledFor, Serves, RecordOf, InFlight, StillSo, Converts;
      assert InStepAt(books.pushed[n], settings.channels[n], applied[n]);
      CalledForServes(settings.channels[n]);
    }

    /** AnalogueOffsetLimits, and whether the offset is within them; then SetChannel. */
    method Tell(n: nat, t: Told) returns (ok: bool)
      requires n < CHANNELS && box.unit != null && box.unit.Shaped()
      modifies box`calls, box.unit`told
      ensures box.unit.Shaped()
      ensures ok == (box.answers(old(box.calls)) && box.answers(old(box.calls) + 1))
      ensures box.calls == old(box.calls) + if box.answers(old(box.calls)) then 2 else 1
      ensures box.unit.told == if ok then old(box.unit.told)[n := t] else old(box.unit.told)
    {
      ok := box.Ask();
      if !ok {
        return;
      }
      ok := box.Ask();
      if ok {
        box.unit.told := box.unit.told[n := t];
      }
    }

    ghost predicate TellingUnit()
      reads `books, box`unit, box.unit
      requires WellKept(books)
    {
      box.unit != null && box.unit.Shaped() && Telling(books.pushed, box.unit.told, box.unit.filters)
    }

    /** The same, as it bears on what the unit was told and what is set up. */
    method PushOne(n: nat) returns (ok: bool)
      requires Shaped() && n < CHANNELS && TellingUnit()
      modifies `applied, `books, box`calls, box.unit`told, box.unit`filters
      ensures Shaped() && TellingUnit()
      ensures box.calls == old(box.calls) + PushCalls(settings.channels[n], box.answers, old(box.calls))
      ensures ok == PushSucceeds(settings.channels[n], box.answers, old(box.calls))
      ensures books == Entered(old(books), n, settings.channels[n], box.answers, old(box.calls))
      ensures ok ==> InStepAt(books.pushed[n], settings.channels[n], applied[n])
      ensures forall m :: 0 <= m < CHANNELS && m != n ==>
                books.pushed[m] == old(books).pushed[m] && applied[m] == old(applied)[m]
    {
      EnteredKept(books, settings, applied, n, box.answers, box.calls);
      EnteredTold(books, settings.channels[n], n, box.answers, box.calls, box.unit.told, box.unit.filters);
      hide CalledFor, PushTells, PushSucceeds, PushCalls, PushedAfter, WholeAfter, SentWell, Converts, Telling,
           InStepAt;
      books := Entered(books, n, settings.channels[n], box.answers, box.calls);
      ok := PushChannel(n);
      assert books.pushed == old(books).pushed[n := books.pushed[n]];
    }

    method PushAllChannels() returns (ok: bool)
      requires Shaped() && TellingUnit()
      modifies `applied, `books, box`calls, box.unit`told, box.unit`filters
      ensures Shaped() && TellingUnit() && box.calls >= old(box.calls)
      ensures books == old(books).(pushed := books.pushed, whole := books.whole)
      ensures ok ==> forall n :: 0 <= n < CHANNELS ==> InStepAt(books.pushed[n], settings.channels[n], applied[n])
      ensures !ok ==> OutOfRange(settings) || !AllYes(box.answers, old(box.calls), box.calls)
      ensures !OutOfRange(settings) && AllYes(box.answers, old(box.calls), old(box.calls) + SetUpCalls(settings.channels)) ==>
                ok && box.calls == old(box.calls) + SetUpCalls(settings.channels)
    {
      hide CalledFor, PushTells, PushSucceeds, PushCalls, FullPush, ToldAsSet, Telling, Sendable, Converts, ToldBy,
           PushedAfter, WholeAfter, Unit.Shaped;
      ok := true;
      for n := 0 to CHANNELS
        invariant Shaped() && TellingUnit() && box.calls >= old(box.calls)
        invariant books == old(books).(pushed := books.pushed, whole := books.whole)
        invariant forall m :: 0 <= m < n ==> InStepAt(books.pushed[m], settings.channels[m], applied[m])
        invariant !OutOfRange(settings) && AllYes(box.answers, old(box.calls), old(box.calls) + SetUpCalls(settings.channels)) ==>
                    box.calls == old(box.calls) + SetUpCalls(settings.channels[..n])
      {
        SetUpCallsGrow(settings.channels, n);
        SetUpCallsGrow(settings.channels, n + 1);
        PushStep(settings.channels[n], box.answers, box.calls);
        ok := PushOne(n);
        if !ok {
          return;
        }
      }
      assert settings.channels[..CHANNELS] == settings.channels;
    }

    method ApplyResolution() returns (ok: bool, changed: bool)
      requires box.unit != null && books.bits == box.unit.bits
      modifies `books, box`calls, box.unit`bits
      ensures books == old(books).(bits := box.unit.bits) && box.calls >= old(box.calls)
      ensures ok && settings.bits.Some? ==> box.unit.bits == settings.bits.value
      ensures !changed ==> box.unit.bits == old(box.unit.bits)
      ensures changed ==> ok && settings.bits.Some? && old(box.unit.bits) != settings.bits.value
      ensures ok && !changed ==> settings.bits.None? || old(box.unit.bits) == settings.bits.value
      ensures settings.bits.None? || old(box.unit.bits) == settings.bits.value ==> ok && box.calls == old(box.calls)
      ensures !ok ==> !AllYes(box.answers, old(box.calls), box.calls)
    {
      if settings.bits.None? || box.unit.bits == settings.bits.value {
        return true, false;
      }
      ok := box.Ask();
      if ok {
        box.unit.bits := settings.bits.value;
        books := books.(bits := settings.bits.value);
      }
      changed := ok;
    }

    /** The resolution and every channel, on a unit this face has not set up. */
    method SetUpUnit() returns (ok: bool)
      requires box.Valid() && Shaped() && books == NOTHING_TOLD && box.unit != null && box.unit.Untouched()
      modifies `applied, `appliedTo, `books
      modifies box`calls, box.unit`bits, box.unit`told, box.unit`filters
      ensures box.Valid() && Shaped() && box.calls >= old(box.calls)
      ensures ok ==> Current() && Linked(box.unit) && books.stale == {} && !books.staleBits
      ensures !ok ==> appliedTo == old(appliedTo)
      ensures !ok ==> OutOfRange(settings) || !AllYes(box.answers, old(box.calls), box.calls)
      ensures (settings.bits.Some? ==> old(box.unit.bits) == settings.bits.value) && !OutOfRange(settings)
              && AllYes(box.answers, old(box.calls), old(box.calls) + SetUpCalls(settings.channels)) ==>
                ok && box.calls == old(box.calls) + SetUpCalls(settings.channels)
    {
      hide CalledFor, SetUpCalls, OutOfRange, InStepAt, SentWell, Converts;
      books := books.(bits := box.unit.bits);
      var changed;
      ok, changed := ApplyResolution();
      if ok {
        ok := PushAllChannels();
      }
      if ok {
        books := books.(stale := {}, staleBits := false);
        appliedTo := box.unit.generation;
      }
    }

    /** The unit of this box, opened if it is not, and set up if this face has not set this one up. */
    method Session() returns (ok: bool)
      requires Valid()
      modifies this`pending, this`held, this`armed, this`completed, this`applied, this`appliedTo, this`books
      modifies box`calls, box`handles, box`generations, box`unit, box`opens
      modifies if box.unit == null then {} else {box.unit}
      ensures Valid() && (ok ==> Current()) && box.calls >= old(box.calls)
      ensures box.unit == null || box.unit == old(box.unit) || fresh(box.unit)
      ensures box.generations >= old(box.generations)
      ensures old(Current()) ==>
                ok && Kept() && box.unit == old(box.unit) && unchanged(old(box.unit)) && box.calls == old(box.calls)
      ensures !old(Current()) && ok ==>
                && pending.None? && held.None? && !armed && !completed && books.stale == {} && !books.staleBits
                && box.unit.onAc == [false, false] && box.unit.target.None?
      ensures !ok ==> box.unit == null && (OutOfRange(settings) || !AllYes(box.answers, old(box.calls), box.calls))
      ensures !ok && !Kept() ==> pending.None? && held.None? && !armed && !completed && appliedTo == 0
      ensures old(box.unit) == null && !OutOfRange(settings)
              && AllYes(box.answers, old(box.calls), old(box.calls) + OPENING_CALLS + SetUpCalls(settings.channels)) ==>
                ok && box.calls == old(box.calls) + OPENING_CALLS + SetUpCalls(settings.channels)
    {
      hide CalledFor, SetUpCalls, OutOfRange, InStep, RecordOf, InFlight, StillSo, SentWell, Converts, AllYes;
      ghost var k := box.calls;
      SessionCalls(box.answers, k, SetUpCalls(settings.channels));
      ok := box.OpenedUnit(settings.bits);
      if !ok {
        return;
      }
      if box.unit.generation == appliedTo {
        return true;
      }
      ghost var ready := box.calls;
      ok := SetUpAnew();
      CallsGrow(box.answers, k, ready, box.calls, box.calls);
    }

    /** What was captured is dropped, and a unit this face has not set up is: or it is closed. */
    method SetUpAnew() returns (ok: bool)
      requires Valid() && box.unit != null && !Current()
      modifies this`pending, this`held, this`armed, this`completed, this`applied, this`appliedTo, this`books
      modifies box`calls, box`handles, box`unit, box.unit`bits, box.unit`told, box.unit`filters
      ensures Valid() && box.calls >= old(box.calls)
      ensures pending.None? && held.None? && !armed && !completed
      ensures ok ==>
                && Current() && box.unit == old(box.unit) && books.stale == {} && !books.staleBits
                && box.unit.onAc == [false, false] && box.unit.target.None?
      ensures !ok ==>
                && box.unit == null && appliedTo == 0
                && (OutOfRange(settings) || !AllYes(box.answers, old(box.calls), box.calls))
      ensures (settings.bits.Some? ==> old(box.unit.bits) == settings.bits.value) && !OutOfRange(settings)
              && AllYes(box.answers, old(box.calls), old(box.calls) + SetUpCalls(settings.channels)) ==>
                ok && box.calls == old(box.calls) + SetUpCalls(settings.channels)
    {
      hide CalledFor, SetUpCalls, OutOfRange, InStep, RecordOf, InFlight, StillSo, AllYes, SentWell, Converts;
      ResetCapture();
      ok := SetUpUnit();
      if !ok {
        box.CloseUnit();
      }
    }

    twostate predicate Kept()
      reads this
    {
      && pending == old(pending) && held == old(held) && armed == old(armed) && completed == old(completed)
      && applied == old(applied) && appliedTo == old(appliedTo)
      && books == old(books)
      && heldOwn == old(heldOwn) && heldSetUp == old(heldSetUp)
    }

    // -------------------------------------------------------------- one block

    /** `source` names a channel from 1. */
    predicate IsOn(source: nat)
      reads `applied
    {
      1 <= source <= |applied| && applied[source - 1].Some?
    }

    /** What this face refuses a capture for by itself. */
    ghost predicate Unready(triggered: bool)
      reads `settings, `applied
    {
      || settings.window.perDivision.None?
      || (forall n :: 0 <= n < |applied| ==> applied[n].None?)
      || (triggered && settings.trigger.source.Some? && !IsOn(settings.trigger.source.value))
    }

    /** Up to RunBlock: the plan, the settling a switch to AC needs, the buffers, the trigger, the block. */
    method BeginCapture(triggered: bool) returns (r: Option<Pending>)
      requires Valid() && Current()
      modifies `couplingChanged, box`calls, box`blocks, box.unit`block, box.unit`onAc, box.unit`target
      ensures box.blocks >= old(box.blocks) && box.calls >= old(box.calls) && box.unit.Shaped()
      ensures r.Some? ==>
                && |r.value.enabled| == CHANNELS
                && (forall n :: 0 <= n < CHANNELS ==> r.value.enabled[n] == applied[n].Some?)
                && !couplingChanged
                && old(box.blocks) < r.value.id <= box.blocks && box.unit.target == Some(r.value.id) && box.unit.block.Some?
                && var b := box.unit.block.value;
                  && b.id == r.value.id && b.trigger == settings.trigger && b.window == settings.window
                  && b.level == (if triggered then LevelOf(settings.trigger, applied) else None)
                  && (triggered ==> b.level.Some?)
                  && b.bits == box.unit.bits && b.told == box.unit.told && b.filters == box.unit.filters
                  && |b.wasAc| == CHANNELS
                  && (Settled(b) <==> old(couplingChanged || box.unit.AcApplied()))
      ensures r.None? ==> Unready(triggered) || !AllYes(box.answers, old(box.calls), box.calls)
    {
      hide InStep, Flags, HeldWell, InFlight, StillSo, Settled, Unit.AcApplied, CalledFor, SentWell, Converts, Linked;
      if settings.window.perDivision.None? {
        return None;
      }
      // planCapture's calls, which may find no timebase or too little memory.
      var ok := box.Ask();
      if !ok {
        return None;
      }
      if couplingChanged {
        ok := SettleCoupling();
        if !ok {
          return None;
        }
        couplingChanged := false;
      }
      var enabled := [applied[0].Some?, applied[1].Some?];
      if true !in enabled {
        return None;
      }
      r := StartBlock(triggered, enabled);
    }

    /** The buffers, the trigger and the block. */
    method StartBlock(triggered: bool, enabled: seq<bool>) returns (r: Option<Pending>)
      requires |enabled| == |applied| == CHANNELS && true in enabled && box.unit != null && box.unit.Shaped()
      requires forall n :: 0 <= n < CHANNELS ==> enabled[n] == applied[n].Some?
      modifies box`calls, box`blocks, box.unit`block, box.unit`onAc, box.unit`target
      ensures box.blocks > old(box.blocks) && box.calls >= old(box.calls) && box.unit.Shaped()
      ensures r.Some? ==>
                && r.value == Pending(box.blocks, enabled) && box.unit.target == Some(box.blocks)
                && box.unit.block == Some(Block(
                     box.blocks, settings.trigger, settings.window,
                     if triggered then LevelOf(settings.trigger, applied) else None,
                     box.unit.bits, box.unit.told, box.unit.filters, old(box.unit.onAc)))
                && (Settled(box.unit.block.value) <==> old(box.unit.AcApplied()))
                && (triggered ==> LevelOf(settings.trigger, applied).Some?)
      ensures r.None? ==> (triggered && settings.trigger.source.Some? && !IsOn(settings.trigger.source.value))
                          || !AllYes(box.answers, old(box.calls), box.calls)
    {
      hide Settled, Unit.AcApplied, CalledFor, SentWell, Converts;
      box.blocks := box.blocks + 1;
      var ok := SetBuffers(box.blocks, enabled);
      if !ok {
        return None;
      }
      if triggered && settings.trigger.source.Some? && !IsOn(settings.trigger.source.value) {
        return None;
      }
      // SetSimpleTrigger, then RunBlock.
      ok := box.Ask();
      if !ok {
        return None;
      }
      ok := box.Ask();
      if !ok {
        return None;
      }
      var level := if triggered then LevelOf(settings.trigger, applied) else None;
      box.unit.Run(box.blocks, settings.trigger, settings.window, level);
      return Some(Pending(box.blocks, enabled));
    }

    method SetBuffers(id: nat, enabled: seq<bool>) returns (ok: bool)
      requires |enabled| == CHANNELS && true in enabled && box.unit != null
      modifies box`calls, box.unit`target
      ensures box.calls >= old(box.calls)
      ensures if ok then box.unit.target == Some(id) else !AllYes(box.answers, old(box.calls), box.calls)
    {
      ok := true;
      for n := 0 to CHANNELS
        invariant ok && (true in enabled[..n] ==> box.unit.target == Some(id)) && box.calls >= old(box.calls)
      {
        if enabled[n] {
          ok := box.Ask();
          if !ok {
            return;
          }
          box.unit.target := Some(id);
        }
      }
      assert enabled[..CHANNELS] == enabled;
    }

    /** One untriggered block whose data is never read, polled until it is ready or given up on. */
    method SettleCoupling() returns (ok: bool)
      requires box.unit != null && box.unit.Shaped()
      modifies box`calls, box`blocks, box.unit`block, box.unit`onAc
      ensures box.blocks >= old(box.blocks) && box.calls >= old(box.calls) && box.unit.Shaped()
      ensures if ok then box.unit.AcApplied() else !AllYes(box.answers, old(box.calls), box.calls)
    {
      ok := box.Ask();
      if !ok {
        return;
      }
      ok := box.Ask();
      if !ok {
        return;
      }
      box.blocks := box.blocks + 1;
      box.unit.Run(box.blocks, settings.trigger, settings.window, None);
      var polled := box.Poll();
      ok := polled.Some?;
    }

    /** Poll until ready or out of patience, then read the block into the record's volts. */
    method FinishCapture(p: Pending) returns (r: Finished)
      requires |applied| == |p.enabled| == CHANNELS && box.unit != null
      modifies box`calls
      ensures box.calls >= old(box.calls)
      ensures r.Captured? ==> r.record == Record(if box.unit.target == Some(p.id) then box.unit.block else None,
                                                 ScalesOf(p.enabled, applied))
      ensures if r.Captured? || r.NoScale? then r.NoScale? <==> ScaleLost(p.enabled, applied)
              else !AllYes(box.answers, old(box.calls), box.calls)
    {
      var ready := box.Poll();
      if ready.None? {
        return Raised;
      }
      if !ready.value {
        return TimedOut;
      }
      // GetValues.
      var ok := box.Ask();
      if !ok {
        return Raised;
      }
      for n := 0 to CHANNELS
        invariant forall m :: 0 <= m < n && p.enabled[m] ==> applied[m].Some?
      {
        if p.enabled[n] && applied[n].None? {
          return NoScale;
        }
      }
      return Captured(Record(if box.unit.target == Some(p.id) then box.unit.block else None, ScalesOf(p.enabled, applied)));
    }

    // -------------------------------------------------------------- the verbs

    ghost function Objects(): set<object>
      reads this, box
    {
      {this, box} + if box.unit == null then {} else {box.unit}
    }

    twostate predicate FreshUnit()
      reads box
    {
      && box.generations >= old(box.generations) && box.calls >= old(box.calls)
      && (box.unit == null || box.unit == old(box.unit) || fresh(box.unit))
    }

    /** Every exception of a verb that talks to the unit has a cause. */
    ghost predicate Failed(from: nat)
      reads this, box
      requires Positive(settings)
    {
      OutOfRange(settings) || !AllYes(box.answers, from, box.calls)
    }

    /** Setup( Osc.channel<n>()...). */
    method ConfigureChannel(n: nat, c: Channel) returns (r: Outcome)
      requires Valid() && n < CHANNELS
      modifies Objects()
      ensures Valid() && FreshUnit() && !r.Undefined?
      ensures r.Refused? <==> (c.probe.Some? && c.probe.value <= 0.0) || (c.range.Some? && c.range.value <= 0.0)
      ensures r.Refused? ==> settings == old(settings) && Kept() && setUp == old(setUp)
      ensures !r.Refused? ==>
                && settings == old(settings).(channels :=
                     old(settings).channels[n := ChannelSetUp(old(settings).channels[n], c)])
                && held.None? && !completed && setUp
      ensures couplingChanged == (old(couplingChanged) || (!r.Refused? && c.Ac() && !old(settings).channels[n].Ac()))
      ensures r.Done? && !simulated ==>
                && Current() && n !in books.stale
                && box.unit.Shaped() && Serves(box.unit.told[n], settings.channels[n])
                && (settings.channels[n].range.Some? && settings.channels[n].limited.Some? ==>
                      box.unit.filters[n] == settings.channels[n].limited)
      ensures !r.Refused? ==> ChannelAsNamed(c, old(settings).channels[n], settings.channels[n])
      ensures old(simulated || Current()) ==>
                pending == old(pending) && armed == old(armed) && box.unit == old(box.unit) && armedBlock == old(armedBlock)
      ensures r.Threw? ==> Failed(old(box.calls))
      ensures !r.Refused? && !simulated && old(Current()) ==> PushedOn(n, old(box.calls))
      ensures !r.Refused? && !simulated && old(box.unit) == null && !OutOfRange(settings)
              && AllYes(box.answers, old(box.calls), old(box.calls) + FreshSetUp(settings, n)) ==>
                r.Done? && books.stale == {} && !books.staleBits && box.calls == old(box.calls) + FreshSetUp(settings, n)
      ensures measured == old(measured)
    {
      hide ChannelAsNamed, Serves, Valid, InStep, InFlight, StillSo, ChannelSetUp, CalledFor, SetUpCalls, FullPush,
           OutOfRange, SentWell, Converts;
      SetUpSoFar();
      SetUpIsNamed(settings.channels[n], c);
      if (c.probe.Some? && c.probe.value <= 0.0) || (c.range.Some? && c.range.value <= 0.0) {
        return Refused;
      }
      MarkChannel(n);
      NoteChannel(n, c);
      if simulated {
        return Done;
      }
      r := PushSetUp(n);
      if r.Done? {
        ServedAsSetUp(n);
      }
    }

    /** Of a unit already set up: one channel pushed, from the `k`-th call on, and the rest as it was. */
    twostate predicate PushedOn(n: nat, k: nat)
      reads this, box, box.unit
      requires Positive(settings) && n < CHANNELS && old(WellKept(books))
    {
      var c := settings.channels[n];
      && Current() && box.unit == old(box.unit) && box.calls == k + PushCalls(c, box.answers, k)
      && books == Entered(old(books), n, c, box.answers, k).(stale :=
           if PushSucceeds(c, box.answers, k) then old(books).stale - {n} else old(books).stale + {n})
      && box.unit.bits == old(box.unit.bits) && box.unit.onAc == old(box.unit.onAc)
      && box.unit.block == old(box.unit.block) && box.unit.target == old(box.unit.target)
    }

    /** A Setup of a channel has begun: nothing is in hand, and the channel is yet to be pushed. */
    method MarkChannel(n: nat)
      requires Valid() && n < CHANNELS
      modifies `books, `setUp, `held, `completed
      ensures Valid() && held.None? && !completed && setUp
      ensures books == old(books).(stale := old(books).stale + {n})
    {
      hide InFlight, StillSo, RecordOf, Telling, InStepAt, SentWell, Converts, CalledFor;
      books, setUp := books.(stale := books.stale + {n}), true;
      Invalidate();
    }

    /** The requested state of a channel that is yet to be pushed. */
    method NoteChannel(n: nat, c: Channel)
      requires Valid() && n < CHANNELS && (c.probe.Some? ==> c.probe.value > 0.0)
      requires n in books.stale && setUp && held.None?
      modifies `settings, `couplingChanged
      ensures Valid()
      ensures settings == old(settings).(channels :=
                old(settings).channels[n := ChannelSetUp(old(settings).channels[n], c)])
      ensures couplingChanged == (old(couplingChanged) || (c.Ac() && !old(settings).channels[n].Ac()))
    {
      hide InFlight, CalledFor, RecordOf, Telling, ToldAsSet, ChannelSetUp, StillSo, ScaleTold, SentWell, Converts,
           Flags, Box.Valid, Unit.Untouched;
      var was := settings.channels[n];
      SetUpKeeps(was, c);
      if c.ac == Some(true) && was.ac != Some(true) {
        couplingChanged := true;
      }
      settings := settings.(channels := settings.channels[n := ChannelSetUp(was, c)]);
    }

    /** The whole channel pushed to this box's unit. */
    method PushSetUp(n: nat) returns (r: Outcome)
      requires Valid() && n < CHANNELS && n in books.stale && setUp && held.None? && !completed
      modifies Objects()
      ensures Valid() && FreshUnit() && settings == old(settings) && held.None? && !completed && setUp
      ensures couplingChanged == old(couplingChanged) && measured == old(measured)
      ensures r.Done? || r.Threw?
      ensures r.Done? ==> Current() && n !in books.stale
      ensures old(Current()) ==>
                pending == old(pending) && armed == old(armed) && box.unit == old(box.unit) && armedBlock == old(armedBlock)
      ensures r.Threw? ==> Failed(old(box.calls))
      ensures old(Current()) ==> PushedOn(n, old(box.calls))
      ensures old(box.unit) == null && !OutOfRange(settings)
              && AllYes(box.answers, old(box.calls), old(box.calls) + FreshSetUp(settings, n)) ==>
                r.Done? && books.stale == {} && !books.staleBits && box.calls == old(box.calls) + FreshSetUp(settings, n)
    {
      hide InStep, InFlight, StillSo, RecordOf, CalledFor, SetUpCalls, FullPush, OutOfRange, AllYes, PushCalls,
           PushTells, PushSucceeds, FreshSetUp, SentWell, Converts, Valid, Entered, BlockOf;
      SetUpSoFar();
      FreshCalls(box.answers, box.calls, settings, n);
      var ok := Session();
      if !ok {
        CallsGrow(box.answers, old(box.calls), old(box.calls), box.calls, box.calls);
        return Threw;
      }
      ghost var k := box.calls;
      r := PushLive(n);
      CallsGrow(box.answers, old(box.calls), k, box.calls, box.calls);
    }

    lemma SetUpSoFar()
      requires Valid()
      ensures Positive(settings) && WellKept(books) && Converts(applied, books.whole)
    {}

    /** One channel pushed to a unit already set up. */
    method PushLive(n: nat) returns (r: Outcome)
      requires Valid() && Current() && n < CHANNELS && setUp && held.None?
      modifies `applied, `books, box`calls, box.unit`told, box.unit`filters
      ensures Valid() && Current() && box.calls >= old(box.calls) && PushedOn(n, old(box.calls))
      ensures if r.Done? then n !in books.stale else r.Threw? && Failed(old(box.calls))
      ensures books.staleBits == old(books.staleBits)
      ensures !OutOfRange(settings) && AllYes(box.answers, old(box.calls), old(box.calls) + FullPush(settings.channels[n])) ==>
                r.Done? && books.stale == old(books.stale) - {n} && box.calls == old(box.calls) + FullPush(settings.channels[n])
    {
      hide CalledFor, FullPush, PushCalls, PushTells, PushSucceeds, RecordOf, InFlight, StillSo, SentWell, Converts,
           Telling, ToldAsSet, Flags, ToldBy;
      PushStep(settings.channels[n], box.answers, box.calls);
      ghost var others := books.stale - {n};
      var ok := PushOne(n);
      assert others + {n} == old(books.stale) + {n};
      books := books.(stale := if ok then others else others + {n});
      r := if ok then Done else Threw;
    }

    /** Setup( Osc.trigger()...). */
    method ConfigureTrigger(c: Trigger)
      requires Valid()
      modifies `settings, `held, `completed, `setUp
      ensures Valid() && held.None? && !completed && setUp
      ensures settings == old(settings).(trigger := TriggerSetUp(old(settings).trigger, c))
      ensures TriggerAsNamed(c, old(settings).trigger, settings.trigger)
    {
      hide CalledFor, RecordOf, InFlight, StillSo, ToldAsSet, SentWell, Converts;
      settings := settings.(trigger := TriggerSetUp(settings.trigger, c));
      setUp := true;
      Invalidate();
    }

    /** Setup( Osc.timebase()...). */
    method ConfigureTimebase(c: Window) returns (r: Outcome)
      requires Valid()
      modifies `settings, `held, `completed, `setUp
      ensures Valid()
      ensures r.Refused? <==> (c.perDivision.Some? && c.perDivision.value <= 0.0) || (c.points.Some? && c.points.value < 2)
      ensures r.Refused? ==> settings == old(settings) && held == old(held) && completed == old(completed)
      ensures !r.Refused? ==> r.Done? && held.None? && !completed
      ensures !r.Refused? ==> settings == old(settings).(window := WindowSetUp(old(settings).window, c))
      ensures !r.Refused? ==> WindowAsNamed(c, old(settings).window, settings.window)
    {
      hide CalledFor, RecordOf, InFlight, StillSo, ToldAsSet, SentWell, Converts;
      if (c.perDivision.Some? && c.perDivision.value <= 0.0) || (c.points.Some? && c.points.value < 2) {
        return Refused;
      }
      settings := settings.(window := WindowSetUp(settings.window, c));
      setUp := true;
      Invalidate();
      return Done;
    }

    /** Setup( Osc.acquisition()...). */
    method ConfigureAcquisition(bits: Option<nat>) returns (r: Outcome)
      requires Valid()
      modifies Objects()
      ensures Valid() && FreshUnit() && held.None? && !completed && setUp
      ensures settings == old(settings).(bits := Or(bits, old(settings).bits)) && (r.Done? || r.Threw?)
      ensures AsNamed(bits, old(settings).bits, settings.bits)
      ensures r.Done? && !simulated && bits.Some? ==>
                && Current() && !books.staleBits && box.unit.bits == bits.value
                && (books.stale == {} || old(Current() && box.unit.bits == bits.value))
      ensures r.Threw? ==> Failed(old(box.calls))
    {
      hide Valid, InStep, InFlight, StillSo, CalledFor, OutOfRange, SentWell, Converts;
      NoteBits(bits);
      if simulated || bits.None? {
        return Done;
      }
      r := PushBits();
    }

    method NoteBits(bits: Option<nat>)
      requires Valid()
      modifies `settings, `books, `setUp, `held, `completed
      ensures Valid() && held.None? && !completed && setUp
      ensures settings == old(settings).(bits := Or(bits, old(settings).bits))
    {
      hide CalledFor, RecordOf, InFlight, StillSo, ToldAsSet, SentWell, Converts;
      if bits.Some? {
        settings := settings.(bits := bits);
        books := books.(staleBits := true);
      }
      setUp := true;
      Invalidate();
    }

    /** The resolution pushed to this box's unit and, if it changed there, every channel again. */
    method PushBits() returns (r: Outcome)
      requires Valid() && setUp && held.None? && settings.bits.Some?
      modifies Objects()
      ensures Valid() && FreshUnit() && settings == old(settings) && held.None? && !completed && setUp
      ensures r.Done? || r.Threw?
      ensures r.Done? ==>
                && Current() && !books.staleBits && box.unit.bits == settings.bits.value
                && (books.stale == {} || old(Current() && box.unit.bits == settings.bits.value))
      ensures r.Threw? ==> Failed(old(box.calls))
    {
      hide CalledFor, SetUpCalls, RecordOf, InFlight, StillSo, InStep, SentWell, Converts, OutOfRange, AllYes, Shaped,
           Linked, Box.Valid, Unit.Untouched;
      var ok := Session();
      if !ok {
        return Threw;
      }
      ghost var k := box.calls;
      r := PushBitsLive();
      CallsGrow(box.answers, old(box.calls), k, box.calls, box.calls);
    }

    /** The same of a unit already set up. */
    method PushBitsLive() returns (r: Outcome)
      requires Valid() && Current() && setUp && held.None? && settings.bits.Some?
      modifies `applied, `books
      modifies box`calls, box.unit`bits, box.unit`told, box.unit`filters
      ensures Valid() && Current() && box.calls >= old(box.calls)
      ensures r.Done? || (r.Threw? && Failed(old(box.calls)))
      ensures r.Done? ==>
                && !books.staleBits && box.unit.bits == settings.bits.value
                && (books.stale == {} || old(books.stale != {} && box.unit.bits == settings.bits.value))
    {
      hide CalledFor, SetUpCalls, RecordOf, InFlight, StillSo, Telling, InStepAt, SentWell, Converts, OutOfRange,
           AllYes;
      var changed := SetBits();
      if changed.None? {
        return Threw;
      }
      if !changed.value {
        return Done;
      }
      ghost var k := box.calls;
      r := PushAgain();
      CallsGrow(box.answers, old(box.calls), k, box.calls, box.calls);
    }

    /** The resolution alone, and whether that changed it. */
    method SetBits() returns (changed: Option<bool>)
      requires Valid() && Current() && setUp && held.None? && settings.bits.Some?
      modifies `books, box`calls, box.unit`bits
      ensures Valid() && Current() && box.calls >= old(box.calls)
      ensures books == old(books).(bits := books.bits, staleBits := books.staleBits)
      ensures changed.None? ==> !AllYes(box.answers, old(box.calls), box.calls)
      ensures changed.Some? ==>
                && !books.staleBits && box.unit.bits == settings.bits.value
                && (changed.value || old(box.unit.bits) == settings.bits.value)
    {
      hide CalledFor, SetUpCalls, RecordOf, InFlight, StillSo, Telling, InStepAt, SentWell, Converts, AllYes;
      var ok, done := ApplyResolution();
      if !ok {
        return None;
      }
      books := books.(staleBits := false);
      return Some(done);
    }

    method PushAgain() returns (r: Outcome)
      requires Valid() && Current() && setUp && held.None?
      modifies `applied, `books, box`calls, box.unit`told, box.unit`filters
      ensures Valid() && Current() && (if r.Done? then books.stale == {} else r.Threw? && Failed(old(box.calls)))
      ensures books.staleBits == old(books.staleBits)
      ensures box.calls >= old(box.calls)
    {
      hide CalledFor, SetUpCalls, RecordOf, InFlight, StillSo, InStepAt, SentWell, Converts, Flags, Unit.Shaped,
           Telling;
      books := books.(stale := {0, 1});
      var ok := PushAllChannels();
      if !ok {
        return Threw;
      }
      books := books.(stale := {});
      return Done;
    }

    /** Every input on AC will have been so before the next block that is kept. */
    ghost predicate SettlesFirst()
      reads `couplingChanged, `settings, `appliedTo, box`unit, box.unit
      requires Positive(settings) && (box.unit != null ==> box.unit.Shaped())
    {
      || couplingChanged
      || if Current() then box.unit.AcApplied()
         else forall n :: 0 <= n < CHANNELS ==>
                var t := CalledFor(settings.channels[n]);
                !(t.Some? && t.value.On? && t.value.ac)
    }

    /** On a unit just set up, the inputs yet to be switched to AC are those set up so. */
    lemma SettlesAsSetUp(unit: Unit)
      requires Shaped() && unit.Shaped() && Linked(unit) && books.stale == {} && unit.onAc == [false, false]
      ensures unit.AcApplied() <==>
              forall n :: 0 <= n < CHANNELS ==>
                var t := CalledFor(settings.channels[n]);
                !(t.Some? && t.value.On? && t.value.ac)
    {
      hide CalledFor, ToldBy, SentWell, Converts;
      forall n | 0 <= n < CHANNELS ensures CalledFor(settings.channels[n]) == Some(unit.told[n]) && !unit.onAc[n] {
        assert InStepAt(books.pushed[n], settings.channels[n], applied[n]);
      }
    }

    /** The block in flight is the unit's last, of the settings in force as far as the unit was told them. */
    ghost predicate OwnBlock()
      reads this, box, box.unit
    {
      && Current() && Shaped() && box.unit.Shaped() && pending.Some? && armedBlock.Some?
      && |armedBlock.value.told| == |armedBlock.value.filters| == CHANNELS
      && |armedBlock.value.wasAc| == CHANNELS && InFlight(box.unit) && StillSo(box.unit)
      && armedBlock.value.level.Some? && armedBlock.value.level == LevelOf(settings.trigger, applied)
      && BlockOf(armedBlock.value, settings, books)
    }

    /** Arm( Osc). */
    method ArmSingle() returns (r: Outcome)
      requires Valid()
      modifies Objects()
      ensures Valid() && FreshUnit() && settings == old(settings) && held.None? && !completed
      ensures r.Done? || r.Threw?
      ensures armed <==> r.Done?
      ensures !setUp && !measured && armedWith == settings
      ensures r.Done? && !simulated ==>
                && Current() && OwnBlock() && !couplingChanged && (Settled(armedBlock.value) <==> old(SettlesFirst()))
                && TriggeredOn(settings.trigger, applied, armedBlock.value.level)
      ensures r.Threw? ==> Failed(old(box.calls)) || (Current() && Unready(true) && (books.stale == {} || old(Current())))
      ensures old(Current()) && !simulated ==>
                applied == old(applied) && books == old(books) && box.unit == old(box.unit)
    {
      hide TriggeredOn, Valid, InStep, InFlight, StillSo, CalledFor, OutOfRange, Settled, OwnBlock, AllYes, Unready,
           SettlesFirst, SentWell, Converts;
      Disarm();
      if simulated {
        ArmSimulated();
        return Done;
      }
      r := ArmUnit();
      if r.Done? {
        OwnLevel();
      }
    }

    lemma OwnLevel()
      requires OwnBlock()
      ensures TriggeredOn(settings.trigger, applied, armedBlock.value.level)
    {
      LevelIsTriggeredOn(settings.trigger, applied);
    }

    /** What Arm forgets first. */
    method Disarm()
      requires Valid()
      modifies `pending, `armed, `held, `completed, `armedWith, `setUp, `measured
      ensures Valid() && pending.None? && !armed && held.None? && !completed
      ensures !setUp && !measured && armedWith == settings
    {
      hide InStep, InFlight, StillSo, RecordOf, CalledFor, SentWell, Converts, Box.Valid;
      Invalidate();
      pending, armed, armedWith, setUp, measured := None, false, settings, false, false;
    }

    method ArmSimulated()
      requires Valid() && simulated && pending.None? && held.None?
      modifies `armed
      ensures Valid() && armed
    {
      hide InStep, InFlight, StillSo, RecordOf, CalledFor, SentWell, Converts;
      armed := true;
    }

    method ArmUnit() returns (r: Outcome)
      requires Valid() && !simulated && pending.None? && !armed && held.None?
      requires !setUp && !measured && armedWith == settings
      modifies Objects()
      ensures Valid() && FreshUnit() && settings == old(settings) && held.None? && !completed
      ensures !setUp && !measured && armedWith == old(armedWith)
      ensures r.Done? || r.Threw?
      ensures armed <==> r.Done?
      ensures r.Done? ==>
                Current() && OwnBlock() && !couplingChanged && (Settled(armedBlock.value) <==> old(SettlesFirst()))
      ensures r.Threw? ==> Failed(old(box.calls)) || (Current() && Unready(true) && (books.stale == {} || old(Current())))
      ensures old(Current()) ==>
                applied == old(applied) && books == old(books) && box.unit == old(box.unit)
    {
      hide CalledFor, SetUpCalls, OutOfRange, Settled, Unit.AcApplied, OwnBlock, RecordOf, Unready, InFlight, StillSo,
           InStep, AllYes, SettlesFirst, SentWell, Converts, Valid, Unit.Shaped;
      var ok := SessionForBlock();
      if !ok {
        return Threw;
      }
      ghost var k := box.calls;
      r := ArmBlock();
      CallsGrow(box.answers, old(box.calls), k, box.calls, box.calls);
    }

    /** `session` before a block, and what it has to do with settling. */
    method SessionForBlock() returns (ok: bool)
      requires Valid() && held.None? && pending.None? && !armed
      modifies Objects()
      ensures Valid() && FreshUnit() && settings == old(settings)
      ensures held.None? && !completed && pending.None? && !armed
      ensures couplingChanged == old(couplingChanged) && armedWith == old(armedWith) && armedBlock == old(armedBlock)
      ensures setUp == old(setUp) && measured == old(measured)
      ensures if ok then Current() && (couplingChanged || box.unit.AcApplied() <==> old(SettlesFirst()))
                         && (books.stale == {} || old(Current()))
              else Failed(old(box.calls))
      ensures old(Current()) ==>
                applied == old(applied) && books == old(books) && box.unit == old(box.unit)
    {
      hide CalledFor, SetUpCalls, OutOfRange, Unit.AcApplied, RecordOf, InFlight, StillSo, Telling, InStepAt, AllYes,
           SentWell, Converts, Unit.Untouched, Unit.Shaped, InStep;
      ok := Session();
      if ok && !old(Current()) {
        SettlesAsSetUp(box.unit);
      }
    }

    method ArmBlock() returns (r: Outcome)
      requires Valid() && Current() && !simulated && pending.None? && !armed && held.None?
      requires !setUp && !measured && armedWith == settings
      modifies `pending, `armed, `armedBlock, `couplingChanged
      modifies box`calls, box`blocks, box.unit`block, box.unit`onAc, box.unit`target
      ensures Valid() && box.calls >= old(box.calls) && Current() && box.unit.Shaped()
      ensures if armed then r.Done? && OwnBlock() else r.Threw?
      ensures r.Done? ==> !couplingChanged && (Settled(armedBlock.value) <==> old(couplingChanged || box.unit.AcApplied()))
      ensures r.Threw? ==> Unready(true) || !AllYes(box.answers, old(box.calls), box.calls)
    {
      hide CalledFor, Settled, Unit.AcApplied, RecordOf, ToldBy, Unready, SentWell, Converts, KeptFor, LevelOf,
           BlockOf, Fits, InStep, Telling, Unit.Untouched;
      var p := BeginOwn();
      if p.None? {
        return Threw;
      }
      // The pre-trigger samples may take longer than the arm timeout.
      var ok := box.Ask();
      if !ok {
        return Threw;
      }
      TakeUp(p.value);
      return Done;
    }

    /** The block just begun is the one to await. */
    method TakeUp(p: Pending)
      requires Valid() && Current() && !simulated && pending.None? && !armed && held.None?
      requires !setUp && !measured && armedWith == settings
      requires |p.enabled| == CHANNELS && armedBlock.Some? && box.unit.block == armedBlock
      requires armedBlock.value.id == p.id <= box.blocks && box.unit.target == Some(p.id)
      requires |armedBlock.value.wasAc| == |armedBlock.value.told| == |armedBlock.value.filters| == CHANNELS
      requires BlockOf(armedBlock.value, settings, books)
      requires armedBlock.value.level.Some? && armedBlock.value.level == LevelOf(settings.trigger, applied)
      requires Fits(armedBlock, p.enabled, settings, applied, box.unit.bits, box.unit.told, box.unit.filters)
      modifies `pending, `armed
      ensures Valid() && armed && OwnBlock()
    {
      hide CalledFor, RecordOf, ToldBy, SentWell, Converts, KeptFor, LevelOf, BlockOf, Fits, InStep, Telling;
      pending, armed := Some(p), true;
    }

    /** A triggered block, which is this face's own. */
    method BeginOwn() returns (p: Option<Pending>)
      requires Valid() && Current() && pending.None?
      modifies `armedBlock, `couplingChanged, box`calls, box`blocks, box.unit`block, box.unit`onAc, box.unit`target
      ensures Valid() && box.calls >= old(box.calls)
      ensures p.Some? ==>
                && |p.value.enabled| == CHANNELS && !couplingChanged && armedBlock.Some? && box.unit.block == armedBlock
                && armedBlock.value.id == p.value.id <= box.blocks && box.unit.target == Some(p.value.id)
                && |armedBlock.value.wasAc| == |armedBlock.value.told| == |armedBlock.value.filters| == CHANNELS
                && BlockOf(armedBlock.value, settings, books)
                && armedBlock.value.level.Some? && armedBlock.value.level == LevelOf(settings.trigger, applied)
                && Fits(armedBlock, p.value.enabled, settings, applied, box.unit.bits, box.unit.told, box.unit.filters)
                && (Settled(armedBlock.value) <==> old(couplingChanged || box.unit.AcApplied()))
      ensures p.None? ==> Unready(true) || !AllYes(box.answers, old(box.calls), box.calls)
    {
      hide CalledFor, Settled, Unit.AcApplied, RecordOf, ToldBy, Unready, SentWell, Converts, KeptFor, LevelOf,
           BlockOf, Fits, InStep, Telling;
      p := BeginCapture(true);
      if p.Some? {
        armedBlock := box.unit.block;
        BlockFits(armedBlock.value, p.value.enabled, settings, applied, books);
      }
    }

    /** Await( Osc); `completes` is what a simulated capture does. */
    method AwaitAcquisition(completes: bool) returns (r: Outcome, done: bool)
      requires Valid()
      modifies Objects()
      ensures Valid() && FreshUnit() && settings == old(settings) && !armed && pending.None?
      ensures !old(armed) ==> r.Done? && !done && Kept()
      ensures setUp == old(setUp) && measured == old(measured)
      ensures old(armed) && !simulated ==> heldOwn == old(Current() && !measured) && heldSetUp == old(setUp)
      ensures old(armed) && r.Done? ==> done == completed
      ensures !r.Done? ==> !done && held.None? && (r.Threw? || r.Undefined?)
      ensures old(armed && !simulated) ==> AwaitEnds(old(pending).value.enabled, r, done, old(box.calls))
      ensures old(armed && !simulated && Current()) ==>
                applied == old(applied) && books == old(books) && box.unit == old(box.unit)
      ensures done && !simulated ==>
                && old(pending).Some? && old(armedBlock).Some? && |old(armedBlock).value.told| == CHANNELS
                && |applied| == |old(pending).value.enabled| == CHANNELS
                && held == Some(Record(old(BlockFilled(pending.value.id)), ScalesOf(old(pending).value.enabled, applied)))
                && (held.value.block == old(armedBlock) <==> old(Current() && InFlight(box.unit)))
      ensures old(armed && !simulated && Current() && !measured) ==> old(InFlight(box.unit))
      ensures old(armed && !simulated) && (done || r.Undefined?) ==> Current() && (books.stale == {} || old(Current()))
      ensures done && !simulated && old(Current() && InFlight(box.unit)) ==>
                (ReadAsRun(held.value) <==>
                   StillRead(old(armedBlock).value, old(pending).value.enabled, books) && LevelAsTold(old(armedBlock).value))
      ensures done && !simulated && old(Current() && !measured && AsAsked()) ==>
                (TakenAs(held.value.block.value, settings) <==>
                   SameAsked(old(armedBlock).value, old(armedWith), settings))
      ensures !old(setUp) && old(armed && !simulated && Current()) ==> !r.Undefined?
    {
      hide Valid, ScalesOf, AwaitEnds, CalledFor, TakenAs, SameAsked, SentWell, Converts, ReadAsRun, StillRead,
           LevelAsTold;
      IdleOrArmed();
      if !armed {
        return Done, false;
      }
      if simulated {
        AwaitSimulated(completes);
        return Done, completed;
      }
      r, done := AwaitLive();
      SetUpSoFar();
      if done {
        StillReadExactly(old(armedBlock).value, old(pending).value.enabled, applied, books);
      }
    }

    lemma IdleOrArmed()
      requires Valid()
      ensures armed && !simulated <==> pending.Some?
      ensures pending.Some? ==>
                && |pending.value.enabled| == |applied| == CHANNELS
                && armedBlock.Some? && |armedBlock.value.told| == CHANNELS
    {}

    method AwaitSimulated(completes: bool)
      requires Valid() && simulated && armed
      modifies `armed, `completed, `held
      ensures Valid() && !armed && pending.None? && completed == completes
    {
      hide InStep, InFlight, StillSo, RecordOf, CalledFor, SentWell, Converts;
      armed := false;
      completed := completes;
      held := if completes then Some(Injected) else None;
    }

    method AwaitLive() returns (r: Outcome, done: bool)
      requires Valid() && !simulated && armed && pending.Some? && |pending.value.enabled| == CHANNELS
      modifies Objects()
      ensures Valid() && FreshUnit() && settings == old(settings) && !armed && pending.None?
      ensures setUp == old(setUp) && measured == old(measured)
      ensures heldOwn == old(Current() && !measured) && heldSetUp == old(setUp)
      ensures r.Done? ==> done == completed
      ensures !r.Done? ==> !done && held.None? && (r.Threw? || r.Undefined?)
      ensures |applied| == CHANNELS && AwaitEnds(old(pending).value.enabled, r, done, old(box.calls))
      ensures old(Current()) ==>
                applied == old(applied) && books == old(books) && box.unit == old(box.unit)
      ensures done ==>
                && old(armedBlock).Some?
                && held == Some(Record(old(BlockFilled(pending.value.id)), ScalesOf(old(pending).value.enabled, applied)))
                && (held.value.block == old(armedBlock) <==> old(Current() && InFlight(box.unit)))
      ensures old(Current() && !measured) ==> old(InFlight(box.unit))
      ensures done || r.Undefined? ==> Current() && (books.stale == {} || old(Current()))
      ensures done && old(Current() && !measured && AsAsked()) ==>
                (TakenAs(held.value.block.value, settings) <==>
                   SameAsked(old(armedBlock).value, old(armedWith), settings))
      ensures !old(setUp) && old(Current()) ==> !r.Undefined?
    {
      hide InStep, ScalesOf, RecordOf, AwaitEnds, CalledFor, TakenAs, SameAsked, Fits, SentWell, Converts, Box.Valid,
           Unit.Untouched, Telling;
      var p := pending.value;
      armed, pending := false, None;
      heldOwn, heldSetUp := Current() && !measured, setUp;
      ghost var was := armedBlock;
      if AsAsked() {
        TakenAsOthersExactly(was.value, armedWith, settings);
      }
      r, done := AwaitUnit(p, was);
    }

    /**
      How an Await ends: the samples of an enabled channel that has no scale are read by none,
      exactly when there is such a channel; and short of that, a capture fails only for a cause.
    */
    ghost predicate AwaitEnds(enabled: seq<bool>, r: Outcome, done: bool, from: nat)
      reads this, box
    {
      && Positive(settings) && |enabled| == |applied| == CHANNELS
      && (r.Undefined? || done ==> (r.Undefined? <==> ScaleLost(enabled, applied)))
      && (!done && !r.Undefined? ==> Failed(from))
    }

    /** The block whose samples go into the buffers of capture `id`: the unit's last, if it is the one to fill them. */
    ghost function BlockFilled(id: nat): Option<Block>
      reads `appliedTo, box`unit, box.unit
    {
      if Current() && box.unit.target == Some(id) then box.unit.block else None
    }

    method AwaitUnit(p: Pending, ghost was: Option<Block>) returns (r: Outcome, done: bool)
      requires Valid() && !simulated && !armed && pending.None? && held.None? && |p.enabled| == CHANNELS
      requires heldOwn ==> Current() && was.Some? && box.unit.block == was && box.unit.target == Some(p.id)
      requires Current() && !heldSetUp ==> Fits(was, p.enabled, settings, applied, box.unit.bits, box.unit.told, box.unit.filters)
      modifies Objects()
      ensures Valid() && FreshUnit() && settings == old(settings) && !armed && pending.None?
      ensures heldOwn == old(heldOwn) && heldSetUp == old(heldSetUp)
      ensures setUp == old(setUp) && measured == old(measured)
      ensures r.Done? ==> done == completed
      ensures !r.Done? ==> !done && held.None? && (r.Threw? || r.Undefined?)
      ensures AwaitEnds(p.enabled, r, done, old(box.calls))
      ensures old(Current()) ==>
                applied == old(applied) && books == old(books) && box.unit == old(box.unit)
      ensures done ==> held == Some(Record(old(BlockFilled(p.id)), ScalesOf(p.enabled, applied)))
      ensures done || r.Undefined? ==> Current() && (books.stale == {} || old(Current()))
      ensures old(Current() && !heldSetUp) ==> !r.Undefined?
    {
      hide ScalesOf, CalledFor, OutOfRange, ToldBy, InFlight, StillSo, AllYes, RecordOf, InStep, SentWell, Converts,
           HeldWell, Box.Valid, Unit.Untouched, Telling, LevelOf;
      var ok := Session();
      if !ok {
        return Threw, false;
      }
      ghost var k := box.calls;
      r, done := TakeRecord(p, was);
      CallsGrow(box.answers, old(box.calls), k, box.calls, box.calls);
    }

    /** The record of a block in flight, kept if it completes. */
    method TakeRecord(p: Pending, ghost was: Option<Block>) returns (r: Outcome, done: bool)
      requires Valid() && Current() && !simulated && !armed && pending.None? && held.None? && |p.enabled| == CHANNELS
      requires heldOwn && !heldSetUp ==> Fits(was, p.enabled, settings, applied, box.unit.bits, box.unit.told, box.unit.filters)
      requires heldOwn ==> was.Some? && box.unit.block == was && box.unit.target == Some(p.id)
      modifies `held, `completed, box`calls
      ensures Valid() && box.calls >= old(box.calls)
      ensures r.Done? ==> done == completed
      ensures !r.Done? ==> !done && held.None? && (r.Threw? || r.Undefined?)
      ensures r.Undefined? || done ==> (r.Undefined? <==> ScaleLost(p.enabled, applied))
      ensures !done && !r.Undefined? ==> !AllYes(box.answers, old(box.calls), box.calls)
      ensures done ==> held == Some(Record(BlockFilled(p.id), ScalesOf(p.enabled, applied)))
    {
      hide ScalesOf, ScaleLost, CalledFor, ToldBy, InFlight, StillSo, AllYes, RecordOf, InStep, Fits, SentWell,
           Converts;
      var finished := FinishCapture(p);
      match finished {
        case Captured(record) =>
          if heldOwn && !heldSetUp {
            RecordFits(was, p.enabled, settings, applied, books, box.unit.told, box.unit.filters);
          }
          completed, held := true, Some(record);
          return Done, true;
        case TimedOut =>
          completed := false;
          return Done, false;
        case Raised => return Threw, false;
        case NoScale => return Undefined, false;
      }
    }

    /** The unit fills the buffers of the capture in flight. */
    ghost predicate InUse()
      reads `pending, box`unit, box.unit
    {
      pending.Some? && box.unit != null && box.unit.target == Some(pending.value.id)
    }

    /** What a Measure or a Fetch reads: the record in hand, or a fresh one nobody keeps. */
    method Measure() returns (r: Outcome, record: Option<Record>)
      requires Valid()
      modifies Objects()
      ensures Valid() && FreshUnit() && settings == old(settings)
      ensures old(held).Some? ==> r.Done? && record == old(held) && Kept()
      ensures r.Done? <==> record.Some?
      ensures old(held).None? ==> held.None? && !completed && (r.Done? || r.Threw?)
      ensures old(Current()) && !simulated ==>
                && Current() && pending == old(pending) && armed == old(armed) && armedBlock == old(armedBlock)
                && applied == old(applied) && books == old(books) && box.unit == old(box.unit)
      ensures old(held).None? && !simulated && r.Done? ==>
                && Current() && RecordOf(record.value, settings, books) && record.value.scales == applied && !InUse()
                && (TakenAs(record.value.block.value, settings) <==> ToldAllAsSet(settings, books))
                && (ReadAsRun(record.value) <==> ToldWhole(books))
                && (Settled(record.value.block.value) <==> old(SettlesFirst()))
      ensures r.Threw? ==> Failed(old(box.calls)) || Unready(false)
    {
      hide InStep, InFlight, StillSo, RecordOf, CalledFor, Settled, SettlesFirst, OutOfRange, SentWell, Converts,
           TakenAs, ReadAsRun, ToldAllAsSet, ToldWhole;
      if held.Some? {
        return Done, held;
      }
      if simulated {
        return Done, Some(Injected);
      }
      r, record := FreshCapture();
      if r.Done? {
        RecordTakenExactly(record.value, settings, books);
        RecordReadExactly(record.value, settings, books);
      }
    }

    method FreshCapture() returns (r: Outcome, record: Option<Record>)
      requires Valid() && !simulated && held.None?
      modifies Objects()
      ensures Valid() && FreshUnit() && settings == old(settings) && held.None? && !completed
      ensures (r.Done? <==> record.Some?) && (r.Done? || r.Threw?)
      ensures r.Done? ==>
                && Current() && RecordOf(record.value, settings, books) && record.value.scales == applied && !InUse()
                && (Settled(record.value.block.value) <==> old(SettlesFirst()))
      ensures old(Current()) ==>
                && Current() && pending == old(pending) && armed == old(armed) && armedBlock == old(armedBlock)
                && applied == old(applied) && books == old(books) && box.unit == old(box.unit)
      ensures r.Threw? ==> Failed(old(box.calls)) || Unready(false)
    {
      hide CalledFor, SetUpCalls, OutOfRange, Settled, Unit.AcApplied, RecordOf, InFlight, StillSo, Telling, InStepAt,
           AllYes, Unready, SentWell, Converts, Shaped, Unit.Shaped, InStep, Linked, Unit.Untouched;
      measured := true;
      var ok := Session();
      if !ok {
        return Threw, None;
      }
      if !old(Current()) {
        SettlesAsSetUp(box.unit);
      }
      ghost var k := box.calls;
      r, record := FreshBlock();
      CallsGrow(box.answers, old(box.calls), k, box.calls, box.calls);
    }

    /** An untriggered block on a unit already set up, read as soon as it is ready. */
    method FreshBlock() returns (r: Outcome, record: Option<Record>)
      requires Valid() && Current() && measured && held.None?
      modifies `couplingChanged, box`calls, box`blocks, box.unit`block, box.unit`onAc, box.unit`target
      ensures Valid() && box.calls >= old(box.calls)
      ensures (r.Done? <==> record.Some?) && (r.Done? || r.Threw?)
      ensures r.Done? ==>
                && RecordOf(record.value, settings, books) && record.value.scales == applied && !InUse()
                && (Settled(record.value.block.value) <==> old(couplingChanged || box.unit.AcApplied()))
      ensures r.Threw? ==> Unready(false) || !AllYes(box.answers, old(box.calls), box.calls)
    {
      hide CalledFor, ToldBy, Settled, Unit.AcApplied, StillSo, Unready, AllYes, SentWell, Converts, HeldWell,
           InStepAt, InFlight;
      var p := BeginCapture(false);
      if p.None? {
        return Threw, None;
      }
      ghost var k := box.calls;
      var finished := FinishCapture(p.value);
      CallsGrow(box.answers, old(box.calls), k, box.calls, box.calls);
      if finished.Captured? {
        RecordFits(box.unit.block, p.value.enabled, settings, applied, books, box.unit.told, box.unit.filters);
        return Done, Some(finished.record);
      }
      return Threw, None;
    }

    /** The session, for its identity. */
    method Identity() returns (ok: bool)
      requires Valid()
      modifies Objects()
      ensures Valid() && FreshUnit() && settings == old(settings) && (if ok then Current() else Failed(old(box.calls)))
      ensures setUp == old(setUp) && measured == old(measured)
      ensures heldOwn == old(heldOwn) && heldSetUp == old(heldSetUp)
      ensures old(Current()) ==> Kept() && Current()
      ensures held == old(held) || held.None?
      ensures pending == old(pending) || pending.None?
    {
      hide InStep, InFlight, StillSo, RecordOf, CalledFor, OutOfRange, SetUpCalls, AllYes, SentWell, Converts;
      ok := Session();
    }

    method CloseSession()
      requires Valid()
      modifies Objects()
      ensures Valid() && box.unit == null && held.None? && pending.None? && !armed && settings == old(settings)
      ensures couplingChanged == old(couplingChanged) && box.calls == old(box.calls)
    {
      ResetCapture();
      box.CloseUnit();
    }

    /** Another library for the box: the open unit and all that was captured are dropped. */
    method UseApi()
      requires Valid()
      modifies Objects()
      ensures Valid() && box.unit == null && held.None? && pending.None? && !armed && settings == old(settings)
    {
      ResetCapture();
      box.CloseUnit();
    }

    /** Never opens a unit, and leaves nothing in flight or in hand. */
    method Safe()
      requires Valid()
      modifies Objects()
      ensures Valid() && box.unit == old(box.unit) && held.None? && pending.None? && !armed && settings == old(settings)
      ensures setUp == old(setUp) && measured == old(measured)
    {
      hide InStep, InFlight, StillSo, RecordOf, CalledFor, SentWell, Converts;
      armed := false;
      Invalidate();
      pending := None;
      if box.unit != null {
        var ok := box.Ask();
      }
    }
  }

  /** An answer that is not OK is one of any longer stretch of calls. */
  lemma CallsGrow(answers: nat -> bool, from: nat, a: nat, b: nat, to: nat)
    requires from <= a && b <= to
    ensures !AllYes(answers, a, b) ==> !AllYes(answers, from, to)
  {}

  lemma SessionCalls(answers: nat -> bool, k: nat, setUp: nat)
    ensures AllYes(answers, k, k + OPENING_CALLS + setUp) ==>
              && AllYes(answers, k, k + OPENING_CALLS)
              && AllYes(answers, k + OPENING_CALLS, k + OPENING_CALLS + setUp)
  {}

  /** A Setup that opens the unit: the opening, the setting up and the one channel again. */
  lemma FreshCalls(answers: nat -> bool, k: nat, settings: Settings, n: nat)
    requires n < |settings.channels|
    ensures
      var ready := k + OPENING_CALLS + SetUpCalls(settings.channels);
      && ready + FullPush(settings.channels[n]) == k + FreshSetUp(settings, n)
      && (AllYes(answers, k, k + FreshSetUp(settings, n)) ==>
        AllYes(answers, k, ready) && AllYes(answers, ready, ready + FullPush(settings.channels[n])))
  {}

  lemma SetUpIsNamed(was: Channel, c: Channel)
    ensures ChannelAsNamed(c, was, ChannelSetUp(was, c))
  {}

  lemma SetUpKeeps(was: Channel, c: Channel)
    requires was.Attenuation() > 0.0 && (c.probe.Some? ==> c.probe.value > 0.0)
    ensures ChannelSetUp(was, c).Attenuation() > 0.0 && (was.range.Some? ==> ChannelSetUp(was, c).range.Some?)
  {}

  lemma NothingCalledFor(c: Channel)
    requires c.Attenuation() > 0.0
    ensures c.range.None? ==> CalledFor(c) == Some(Untold)
  {}

  const BLANK: Channel := Channel(None, None, None, None, None, None)
}

/**
 * ChilkatPop3BounceReceiver: one polling cycle over one mailbox. It lists the
 * messages, inspects each, keeps the bounces of this environment as bounce
 * records, hands the batch to the caller once and then deletes exactly those
 * messages.
 */
module Pop3BounceReceiver {
  import opened Wrappers
  import opened Reporting
  import opened Mailbox
  import opened ChilkatBounceInspection

  /** IEnvironmentId: whether a message's environment header names this deployment. */
  class EnvironmentId {
    const isMatching: Option<string> -> bool

    constructor (isMatching: Option<string> -> bool)
      ensures this.isMatching == isMatching
    {
      this.isMatching := isMatching;
    }
  }

  /**
   * MapToBounce: the record for a confirmed bounce. MessageId and InstanceId both
   * come from the batch-id header; a missing header gives a null field.
   */
  function MapToBounce(mail: Email, bounceType: BounceStatus): (b: Bounce)
    ensures b.id == mail.uidl && b.bounceType == bounceType
    ensures b.messageId == b.instanceId == mail.GetHeader(XBatchId)
    ensures b.campaignId == mail.GetHeader(XSitecoreCampaign)
    ensures b.contactId == mail.GetHeader(XMessageId)
  {
    Bounce(
      id := mail.uidl,
      messageId := mail.GetHeader(XBatchId),
      campaignId := mail.GetHeader(XSitecoreCampaign),
      contactId := mail.GetHeader(XMessageId),
      instanceId := mail.GetHeader(XBatchId),
      bounceType := bounceType)
  }

  /** `bouncedMessages.Select(message => message.Id)`. */
  function Ids(batch: seq<Bounce>): (ids: seq<string>)
    ensures |ids| == |batch| && forall i :: 0 <= i < |batch| ==> ids[i] == batch[i].id
  {
    seq(|batch|, i requires 0 <= i < |batch| => batch[i].id)
  }

  /**
   * What one polling cycle sees of the world: the mailbox contents, the engine's
   * MIME-only codes (which decide whether InspectEmail fetches), the inspector's
   * verdict for each listed message, and the environment matcher.
   */
  datatype Context = Context(
    store: map<string, Email>,
    mimeCode: string -> int,
    inspect: Summary -> Inspection,
    isMatching: Option<string> -> bool)

  /** The state of the message loop: records so far, calls so far, and the unique id whose Status field could not be read. */
  datatype Scan = Scan(batch: seq<Bounce>, events: seq<Event>, fault: Option<string>)

  /**
   * How a cycle ends: normally (having handed over `handed`, possibly nothing),
   * with the exception a null Status field raises, or with the handler's exception.
   */
  datatype CycleOutcome =
    | Completed(handed: seq<Bounce>)
    | StatusUnreadable(uidl: string)
    | HandlerFailed(batch: seq<Bounce>)

  datatype Cycle = Cycle(outcome: CycleOutcome, events: seq<Event>)

  /**
   * The record a listed message becomes, if any: it must be a bounce, still
   * retrievable, and of this environment.
   */
  function RecordFor(ctx: Context, mail: Summary): (r: Option<Bounce>)
    ensures r.Some? <==>
              && ctx.inspect(mail).Verdict? && ctx.inspect(mail).status != NotBounce
              && mail.uidl in ctx.store
              && ctx.isMatching(ctx.store[mail.uidl].GetHeader(XSitecoreEnvironmentId))
    ensures r.Some? ==> r.value.bounceType in {SoftBounce, HardBounce}
  {
    match ctx.inspect(mail)
    case Verdict(status) =>
      if status != NotBounce && mail.uidl in ctx.store
         && ctx.isMatching(ctx.store[mail.uidl].GetHeader(XSitecoreEnvironmentId))
      then Some(MapToBounce(ctx.store[mail.uidl], status))
      else None
    case StatusUnavailable => None
  }

  /** Reference reading of the loop: the records of the accepted messages, in listing order. */
  ghost function AcceptedRecords(ctx: Context, listing: seq<Summary>): (r: seq<Bounce>)
    ensures |r| <= |listing|
    ensures forall k :: 0 <= k < |r| ==> r[k].bounceType in {SoftBounce, HardBounce}
  {
    if listing == [] then []
    else
      (match RecordFor(ctx, listing[0]) case Some(b) => [b] case None => [])
      + AcceptedRecords(ctx, listing[1..])
  }

  /**
   * What the loop body does with one listed message: the record it keeps, the
   * calls it makes, and whether the Status field could not be read.
   */
  datatype Visit = Visit(record: Option<Bounce>, events: seq<Event>, unreadable: bool)

  function VisitOf(ctx: Context, mail: Summary): (v: Visit)
  {
    var inspected := InspectionEvents(ctx.mimeCode, mail);
    match ctx.inspect(mail)
    case StatusUnavailable => Visit(None, inspected, true)
    case Verdict(status) =>
      if status == NotBounce then Visit(None, inspected, false)
      else
        var retrieved := inspected + [Retrieved(mail.uidl)];
        if mail.uidl !in ctx.store then Visit(None, retrieved, false)
        else
          var full := ctx.store[mail.uidl];
          if ctx.isMatching(full.GetHeader(XSitecoreEnvironmentId))
          then Visit(Some(MapToBounce(full, status)), retrieved, false)
          else Visit(None, retrieved, false)
  }

  /** The loop body keeps exactly the record the reference reading accepts. */
  lemma VisitKeepsRecord(ctx: Context, mail: Summary)
    ensures VisitOf(ctx, mail).record == RecordFor(ctx, mail)
    ensures VisitOf(ctx, mail).unreadable <==> ctx.inspect(mail).StatusUnavailable?
  {
  }

  /** One iteration of the message loop. */
  function Step(ctx: Context, acc: Scan, mail: Summary): (r: Scan)
    requires acc.fault.None?
  {
    var visit := VisitOf(ctx, mail);
    Scan(
      acc.batch + (match visit.record case Some(b) => [b] case None => []),
      acc.events + visit.events,
      if visit.unreadable then Some(mail.uidl) else None)
  }

  /** The message loop over a listing; it stops at the first fault. */
  function ScanAll(ctx: Context, listing: seq<Summary>): (r: Scan)
  {
    if listing == [] then Scan([], [], None)
    else
      var previous := ScanAll(ctx, listing[..|listing| - 1]);
      if previous.fault.Some? then previous
      else Step(ctx, previous, listing[|listing| - 1])
  }

  /** A whole cycle: count, list, scan, then at most one hand-off and one delete. */
  function RunCycle(ctx: Context, handleBounces: seq<Bounce> -> bool, listing: seq<Summary>): (r: Cycle)
    ensures r.events != [] && r.events[0] == CountQueried
    ensures |listing| > 0 <==> |r.events| > 1 && r.events[1] == Listed
  {
    if |listing| == 0 then Cycle(Completed([]), [CountQueried])
    else
      var rest := AfterScan(handleBounces, ScanAll(ctx, listing));
      Cycle(rest.outcome, [CountQueried] + rest.events)
  }

  /** What a cycle does after counting a non-empty mailbox: list, run the message loop, then hand off. */
  function AfterScan(handleBounces: seq<Bounce> -> bool, scan: Scan): (r: Cycle)
  {
    var seen := [Listed] + scan.events;
    if scan.fault.Some? then Cycle(StatusUnreadable(scan.fault.value), seen)
    else
      var tail := HandOff(handleBounces, scan.batch);
      Cycle(tail.outcome, seen + tail.events)
  }

  /** The end of a cycle without a fault: hand a non-empty batch over once, and delete it only if the handler completed. */
  function HandOff(handleBounces: seq<Bounce> -> bool, batch: seq<Bounce>): (r: Cycle)
    ensures r.outcome.HandlerFailed? <==> batch != [] && !handleBounces(batch)
    ensures r.outcome.HandlerFailed? ==> r.outcome.batch == batch
    ensures r.outcome.Completed? ==> r.outcome.handed == batch
    ensures (exists i :: 0 <= i < |r.events| && r.events[i].Deleted?) <==> batch != [] && handleBounces(batch)
    ensures forall i :: 0 <= i < |r.events| && r.events[i].Handled? ==> i == 0 && r.events[i].batch == batch
  {
    if batch == [] then Cycle(Completed([]), [])
    else if !handleBounces(batch) then Cycle(HandlerFailed(batch), [Handled(batch)])
    else
      var events := [Handled(batch), Deleted(Ids(batch))];
      assert events[1].Deleted?;
      Cycle(Completed(batch), events)
  }

  /** Without a fault, one more message is one more step. */
  lemma ScanExtends(ctx: Context, listing: seq<Summary>, i: nat)
    requires i < |listing| && ScanAll(ctx, listing[..i]).fault.None?
    ensures ScanAll(ctx, listing[..i + 1]) == Step(ctx, ScanAll(ctx, listing[..i]), listing[i])
  {
    assert listing[..i + 1][..i] == listing[..i];
  }

  /** Once the loop has stopped on a fault, later messages change nothing. */
  lemma {:induction false} FaultStays(ctx: Context, listing: seq<Summary>, k: nat)
    requires k <= |listing| && ScanAll(ctx, listing[..k]).fault.Some?
    ensures ScanAll(ctx, listing) == ScanAll(ctx, listing[..k])
    decreases |listing| - k
  {
    if k == |listing| {
      assert listing[..k] == listing;
    } else {
      var front := listing[..|listing| - 1];
      assert front[..k] == listing[..k];
      FaultStays(ctx, front, k);
    }
  }

  lemma {:induction false} AcceptedRecordsAppend(ctx: Context, listing: seq<Summary>, mail: Summary)
    ensures AcceptedRecords(ctx, listing + [mail])
            == AcceptedRecords(ctx, listing) + (match RecordFor(ctx, mail) case Some(b) => [b] case None => [])
  {
    if listing == [] {
      assert [] + [mail] == [mail];
      assert [mail][1..] == [];
    } else {
      var extended := listing + [mail];
      assert extended[0] == listing[0];
      assert extended[1..] == listing[1..] + [mail];
      AcceptedRecordsAppend(ctx, listing[1..], mail);
    }
  }

  /**
   * Without a fault the loop collects exactly the records of the accepted
   * messages, in listing order.
   */
  lemma {:induction false} ScanCollectsAccepted(ctx: Context, listing: seq<Summary>)
    requires ScanAll(ctx, listing).fault.None?
    ensures ScanAll(ctx, listing).batch == AcceptedRecords(ctx, listing)
  {
    if listing != [] {
      var front := listing[..|listing| - 1];
      var last := listing[|listing| - 1];
      assert listing == front + [last];
      ScanCollectsAccepted(ctx, front);
      AcceptedRecordsAppend(ctx, front, last);
    }
  }

  /**
   * A record is kept only for a bounce that can be retrieved and belongs to this
   * environment; its type is the inspector's verdict for that very message.
   */
  lemma RecordMeaning(ctx: Context, mail: Summary, b: Bounce)
    requires RecordFor(ctx, mail) == Some(b)
    ensures ctx.inspect(mail) == Verdict(b.bounceType) && b.bounceType in {SoftBounce, HardBounce}
    ensures mail.uidl in ctx.store && b.id == ctx.store[mail.uidl].uidl
    ensures ctx.isMatching(ctx.store[mail.uidl].GetHeader(XSitecoreEnvironmentId))
    ensures b == MapToBounce(ctx.store[mail.uidl], b.bounceType)
  {
  }

  /** Every record comes from a listed message that RecordFor accepts. */
  lemma {:induction false} AcceptedRecordsSound(ctx: Context, listing: seq<Summary>)
    ensures forall k :: 0 <= k < |AcceptedRecords(ctx, listing)| ==>
              exists i :: 0 <= i < |listing| && RecordFor(ctx, listing[i]) == Some(AcceptedRecords(ctx, listing)[k])
  {
    if listing != [] {
      var rest := listing[1..];
      AcceptedRecordsSound(ctx, rest);
      var head := match RecordFor(ctx, listing[0]) case Some(b) => [b] case None => [];
      assert AcceptedRecords(ctx, listing) == head + AcceptedRecords(ctx, rest);
      forall k | 0 <= k < |AcceptedRecords(ctx, listing)|
        ensures exists i :: 0 <= i < |listing| && RecordFor(ctx, listing[i]) == Some(AcceptedRecords(ctx, listing)[k])
      {
        if k < |head| {
          assert RecordFor(ctx, listing[0]) == Some(AcceptedRecords(ctx, listing)[k]);
        } else {
          var j :| 0 <= j < |rest| && RecordFor(ctx, rest[j]) == Some(AcceptedRecords(ctx, rest)[k - |head|]);
          assert listing[j + 1] == rest[j];
        }
      }
    } else {
      assert AcceptedRecords(ctx, listing) == [];
    }
  }

  /** The loop stops only on a listed message whose Status field could not be read. */
  lemma {:induction false} ScanFaultWitness(ctx: Context, listing: seq<Summary>)
    ensures ScanAll(ctx, listing).fault.Some? ==>
              exists i :: 0 <= i < |listing| && listing[i].uidl == ScanAll(ctx, listing).fault.value
                          && ctx.inspect(listing[i]).StatusUnavailable?
  {
    if listing != [] {
      var front := listing[..|listing| - 1];
      ScanFaultWitness(ctx, front);
      if ScanAll(ctx, front).fault.Some? {
        var i :| 0 <= i < |front| && front[i].uidl == ScanAll(ctx, front).fault.value
                 && ctx.inspect(front[i]).StatusUnavailable?;
        assert listing[i] == front[i];
      }
    }
  }

  /**
   * A whole cycle: what it hands over (whether the handler completes or fails) is
   * exactly the records of the accepted messages in listing order; a cycle that
   * completes with nothing handed over had nothing to accept; an aborted cycle
   * names a listed message whose Status field could not be read.
   */
  lemma CycleHandsAccepted(ctx: Context, handleBounces: seq<Bounce> -> bool, listing: seq<Summary>)
    ensures var c := RunCycle(ctx, handleBounces, listing);
            c.outcome.Completed? ==> c.outcome.handed == AcceptedRecords(ctx, listing)
    ensures var c := RunCycle(ctx, handleBounces, listing);
            c.outcome.HandlerFailed? ==> c.outcome.batch == AcceptedRecords(ctx, listing) != []
    ensures var c := RunCycle(ctx, handleBounces, listing);
            c.outcome.StatusUnreadable? ==>
              exists i :: 0 <= i < |listing| && listing[i].uidl == c.outcome.uidl
                          && ctx.inspect(listing[i]).StatusUnavailable?
  {
    if |listing| > 0 {
      ScanFaultWitness(ctx, listing);
      if ScanAll(ctx, listing).fault.None? {
        ScanCollectsAccepted(ctx, listing);
      }
    }
  }

  /** No more records than listed messages. */
  lemma {:induction false} ScanBatchBound(ctx: Context, listing: seq<Summary>)
    ensures |ScanAll(ctx, listing).batch| <= |listing|
  {
    if listing != [] {
      ScanBatchBound(ctx, listing[..|listing| - 1]);
    }
  }

  /** Every record is a soft or a hard bounce. */
  lemma {:induction false} ScanBatchBounces(ctx: Context, listing: seq<Summary>)
    ensures forall i :: 0 <= i < |ScanAll(ctx, listing).batch| ==>
              ScanAll(ctx, listing).batch[i].bounceType in {SoftBounce, HardBounce}
  {
    if listing != [] {
      ScanBatchBounces(ctx, listing[..|listing| - 1]);
    }
  }

  /** The loop only fetches: it neither hands over nor deletes. */
  lemma {:induction false} ScanOnlyFetches(ctx: Context, listing: seq<Summary>)
    ensures forall i :: 0 <= i < |ScanAll(ctx, listing).events| ==>
              ScanAll(ctx, listing).events[i].Fetched? || ScanAll(ctx, listing).events[i].Retrieved?
  {
    if listing != [] {
      ScanOnlyFetches(ctx, listing[..|listing| - 1]);
    }
  }

  /** A bounce whose full message can no longer be retrieved is skipped, and the loop goes on. */
  lemma UnretrievableSkipped(ctx: Context, listing: seq<Summary>, mail: Summary)
    requires ScanAll(ctx, listing).fault.None? && ctx.inspect(mail).Verdict? && mail.uidl !in ctx.store
    ensures ScanAll(ctx, listing + [mail]).fault.None?
    ensures ScanAll(ctx, listing + [mail]).batch == ScanAll(ctx, listing).batch
  {
    assert (listing + [mail])[..|listing|] == listing;
  }

  /** An empty mailbox: the count is queried and nothing else happens. */
  lemma EmptyMailbox(ctx: Context, handleBounces: seq<Bounce> -> bool)
    ensures RunCycle(ctx, handleBounces, []) == Cycle(Completed([]), [CountQueried])
  {
  }

  /** The handler is called at most once, only with the non-empty batch the loop collected. */
  lemma HandlerAtMostOnce(ctx: Context, handleBounces: seq<Bounce> -> bool, listing: seq<Summary>)
    ensures var events := RunCycle(ctx, handleBounces, listing).events;
            forall i, j :: 0 <= i < j < |events| ==> !(events[i].Handled? && events[j].Handled?)
    ensures var events := RunCycle(ctx, handleBounces, listing).events;
            forall i :: 0 <= i < |events| && events[i].Handled? ==>
              events[i].batch != [] && events[i].batch == ScanAll(ctx, listing).batch
  {
    ScanOnlyFetches(ctx, listing);
  }

  /**
   * A delete happens iff the handler completed on a non-empty batch; it is the
   * last step, right after the hand-off, and names exactly that batch's ids.
   */
  lemma DeleteFollowsHandler(ctx: Context, handleBounces: seq<Bounce> -> bool, listing: seq<Summary>)
    ensures var c := RunCycle(ctx, handleBounces, listing);
            (exists i :: 0 <= i < |c.events| && c.events[i].Deleted?)
            <==> c.outcome.Completed? && c.outcome.handed != []
    ensures var c := RunCycle(ctx, handleBounces, listing);
            forall i :: 0 <= i < |c.events| && c.events[i].Deleted? ==>
              && c.outcome.Completed?
              && i == |c.events| - 1 && i > 0
              && c.events[i - 1] == Handled(c.outcome.handed)
              && c.events[i].ids == Ids(c.outcome.handed)
  {
    ScanOnlyFetches(ctx, listing);
    var c := RunCycle(ctx, handleBounces, listing);
    if c.outcome.Completed? && c.outcome.handed != [] {
      assert c.events[|c.events| - 1].Deleted?;
    }
  }

  /** When the handler fails, nothing is deleted. */
  lemma HandlerFailureKeepsMail(ctx: Context, handleBounces: seq<Bounce> -> bool, listing: seq<Summary>)
    requires RunCycle(ctx, handleBounces, listing).outcome.HandlerFailed?
    ensures var events := RunCycle(ctx, handleBounces, listing).events;
            forall i :: 0 <= i < |events| ==> !events[i].Deleted?
  {
    ScanOnlyFetches(ctx, listing);
  }

  /**
   * The handler's answer decides the end of a cycle. When it fails on the
   * accepted records, the cycle reports that batch and deletes nothing.
   */
  lemma HandlerFalseDeletesNothing(ctx: Context, handleBounces: seq<Bounce> -> bool, listing: seq<Summary>)
    requires |listing| > 0 && ScanAll(ctx, listing).fault.None?
    requires AcceptedRecords(ctx, listing) != [] && !handleBounces(AcceptedRecords(ctx, listing))
    ensures var c := RunCycle(ctx, handleBounces, listing);
            && c.outcome == HandlerFailed(AcceptedRecords(ctx, listing))
            && forall i :: 0 <= i < |c.events| ==> !c.events[i].Deleted?
  {
    ScanCollectsAccepted(ctx, listing);
    ScanOnlyFetches(ctx, listing);
  }

  /** When the handler completes on the accepted records, the cycle ends by deleting exactly their ids, right after the hand-off. */
  lemma HandlerTrueDeletesBatch(ctx: Context, handleBounces: seq<Bounce> -> bool, listing: seq<Summary>)
    requires |listing| > 0 && ScanAll(ctx, listing).fault.None?
    requires AcceptedRecords(ctx, listing) != [] && handleBounces(AcceptedRecords(ctx, listing))
    ensures var c := RunCycle(ctx, handleBounces, listing);
            && c.outcome == Completed(AcceptedRecords(ctx, listing))
            && |c.events| >= 2
            && c.events[|c.events| - 2] == Handled(AcceptedRecords(ctx, listing))
            && c.events[|c.events| - 1] == Deleted(Ids(AcceptedRecords(ctx, listing)))
  {
    ScanCollectsAccepted(ctx, listing);
  }

  /** When no message is accepted, the handler is not called and nothing is deleted. */
  lemma NothingAcceptedNothingHanded(ctx: Context, handleBounces: seq<Bounce> -> bool, listing: seq<Summary>)
    requires ScanAll(ctx, listing).fault.None? && AcceptedRecords(ctx, listing) == []
    ensures var c := RunCycle(ctx, handleBounces, listing);
            && c.outcome == Completed([])
            && forall i :: 0 <= i < |c.events| ==> !c.events[i].Handled? && !c.events[i].Deleted?
  {
    ScanCollectsAccepted(ctx, listing);
    ScanOnlyFetches(ctx, listing);
  }

  /**
   * The first listed message whose Status field cannot be read ends the cycle:
   * it is reported, and neither the handler nor the delete is reached.
   */
  lemma NullStatusAborts(ctx: Context, handleBounces: seq<Bounce> -> bool, listing: seq<Summary>, i: nat)
    requires i < |listing| && ScanAll(ctx, listing[..i]).fault.None?
    requires ctx.inspect(listing[i]).StatusUnavailable?
    ensures var c := RunCycle(ctx, handleBounces, listing);
            && c.outcome == StatusUnreadable(listing[i].uidl)
            && forall k :: 0 <= k < |c.events| ==> !c.events[k].Handled? && !c.events[k].Deleted?
  {
    ScanExtends(ctx, listing, i);
    VisitKeepsRecord(ctx, listing[i]);
    FaultStays(ctx, listing, i + 1);
    ScanOnlyFetches(ctx, listing);
  }

  class ChilkatPop3BounceReceiver {
    const settings: Pop3Settings
    const inspector: ChilkatBounceInspector
    const environmentId: EnvironmentId

    constructor (settings: Pop3Settings, inspector: ChilkatBounceInspector, environmentId: EnvironmentId)
      ensures this.settings == settings && this.inspector == inspector && this.environmentId == environmentId
    {
      this.settings := settings;
      this.inspector := inspector;
      this.environmentId := environmentId;
    }

    /**
     * `ctx` is the context a cycle of this receiver runs in over the mailbox
     * contents `store`: its engine, its environment matcher, and the verdict
     * InspectEmail gives each message.
     */
    ghost predicate Runs(ctx: Context, store: map<string, Email>)
    {
      && ctx.store == store
      && ctx.mimeCode == inspector.mimeCode
      && ctx.isMatching == environmentId.isMatching
      && inspector.Decides(ctx.inspect, store)
    }

    /** The context of a cycle over `store`. */
    function ContextFor(store: map<string, Email>): (ctx: Context)
      ensures Runs(ctx, store)
    {
      Context(store, inspector.mimeCode, mail => inspector.InspectionOf(store, mail), environmentId.isMatching)
    }

    /** The body of the `foreach` loop of ProcessMessages for one listed message. */
    method ExamineMessage(client: Pop3Client, mail: Summary, ghost ctx: Context)
        returns (record: Option<Bounce>, unreadable: bool)
      requires Runs(ctx, client.store)
      modifies client`events, inspector
      ensures record == VisitOf(ctx, mail).record && unreadable == VisitOf(ctx, mail).unreadable
      ensures client.events == old(client.events) + VisitOf(ctx, mail).events
    {
      var status := inspector.InspectEmail(mail, client);
      assert status == ctx.inspect(mail);
      if status.StatusUnavailable? {
        return None, true;
      }
      record := None;
      if status.status != NotBounce {
        var fullMail := client.GetMail(mail.uidl);
        if fullMail.None? {
          return None, false;
        }
        var environmentIdHeader := fullMail.value.GetHeader(XSitecoreEnvironmentId);
        if environmentId.isMatching(environmentIdHeader) {
          record := Some(MapToBounce(fullMail.value, status.status));
        }
      }
      unreadable := false;
    }

    /**
     * The `foreach` loop of ProcessMessages over the listed messages, stopping at
     * the exception a null Status field raises.
     */
    method CollectBounces(client: Pop3Client, messages: seq<Summary>, ghost ctx: Context)
        returns (bouncedMessages: seq<Bounce>, fault: Option<string>)
      requires Runs(ctx, client.store)
      modifies client`events, inspector
      ensures bouncedMessages == ScanAll(ctx, messages).batch
      ensures fault == ScanAll(ctx, messages).fault
      ensures client.events == old(client.events) + ScanAll(ctx, messages).events
    {
      bouncedMessages := [];
      ghost var acc := Scan([], [], None);
      for i := 0 to |messages|
        invariant client.store == ctx.store
        invariant acc == ScanAll(ctx, messages[..i])
        invariant acc.fault.None? && acc.batch == bouncedMessages
        invariant client.events == old(client.events) + acc.events
      {
        var mail := messages[i];
        var record, unreadable := ExamineMessage(client, mail, ctx);
        assert client.events == old(client.events) + (acc.events + VisitOf(ctx, mail).events);
        ScanExtends(ctx, messages, i);
        acc := Step(ctx, acc, mail);
        if unreadable {
          FaultStays(ctx, messages, i + 1);
          assert messages[..|messages|] == messages;
          return bouncedMessages, Some(mail.uidl);
        }
        if record.Some? {
          bouncedMessages := bouncedMessages + [record.value];
        }
      }
      assert messages[..|messages|] == messages;
      fault := None;
    }

    /**
     * The tail of ProcessMessages: a non-empty batch goes to the handler once, and
     * its messages are deleted only when the handler completes.
     */
    method HandOver(client: Pop3Client, bouncedMessages: seq<Bounce>, handleBounces: seq<Bounce> -> bool) returns (outcome: CycleOutcome)
      modifies client
      ensures outcome == HandOff(handleBounces, bouncedMessages).outcome
      ensures client.events == old(client.events) + HandOff(handleBounces, bouncedMessages).events
      ensures if outcome.Completed? && outcome.handed != []
              then client.store == old(client.store) - IdSet(Ids(outcome.handed))
                   && client.summaries == Without(old(client.summaries), Ids(outcome.handed))
              else client.store == old(client.store) && client.summaries == old(client.summaries)
    {
      if |bouncedMessages| == 0 {
        return Completed([]);
      }
      client.events := client.events + [Handled(bouncedMessages)];
      if !handleBounces(bouncedMessages) {
        return HandlerFailed(bouncedMessages);
      }
      client.DeleteMultipleMails(Ids(bouncedMessages));
      outcome := Completed(bouncedMessages);
    }

    /**
     * The `count > 0` branch of ProcessMessages, after the count was recorded on
     * top of the trace `before`: list, run the loop, and hand over what it
     * collected unless it was aborted.
     */
    method ProcessListing(client: Pop3Client, handleBounces: seq<Bounce> -> bool, ghost ctx: Context, ghost before: seq<Event>)
        returns (outcome: CycleOutcome)
      requires Runs(ctx, client.store)
      requires client.summaries != [] && client.events == before + [CountQueried]
      modifies client, inspector
      ensures outcome == RunCycle(ctx, handleBounces, old(client.summaries)).outcome
      ensures client.events == before + RunCycle(ctx, handleBounces, old(client.summaries)).events
      ensures if outcome.Completed? && outcome.handed != []
              then client.store == old(client.store) - IdSet(Ids(outcome.handed))
                   && client.summaries == Without(old(client.summaries), Ids(outcome.handed))
              else client.store == old(client.store) && client.summaries == old(client.summaries)
    {
      var messages := client.GetMails();
      var bouncedMessages, fault := CollectBounces(client, messages, ctx);
      ghost var scan := ScanAll(ctx, messages);
      ghost var seen := [Listed] + scan.events;
      assert client.events == before + ([CountQueried] + seen);
      if fault.Some? {
        return StatusUnreadable(fault.value);
      }
      outcome := HandOver(client, bouncedMessages, handleBounces);
      assert client.events == before + ([CountQueried] + (seen + HandOff(handleBounces, bouncedMessages).events));
    }

    /**
     * ProcessMessages: one polling cycle on the connection `client` with the
     * caller's handler (true when it completes, false when it throws).
     */
    method ProcessMessages(client: Pop3Client, handleBounces: seq<Bounce> -> bool, ghost ctx: Context)
        returns (outcome: CycleOutcome)
      requires Runs(ctx, client.store)
      modifies client, inspector
      ensures outcome == RunCycle(ctx, handleBounces, old(client.summaries)).outcome
      ensures client.events == old(client.events) + RunCycle(ctx, handleBounces, old(client.summaries)).events
      ensures if outcome.Completed? && outcome.handed != []
              then client.store == old(client.store) - IdSet(Ids(outcome.handed))
                   && client.summaries == Without(old(client.summaries), Ids(outcome.handed))
              else client.store == old(client.store) && client.summaries == old(client.summaries)
    {
      var count := client.GetMailboxCount();
      if count <= 0 {
        return Completed([]);
      }
      outcome := ProcessListing(client, handleBounces, ctx, old(client.events));
    }
  }
}

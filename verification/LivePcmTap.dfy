/** The droppable live observer of a capture session: one sender slot guarded by a
    generation, one bounded channel per consumer, and drop counting. */
module LivePcmTap {
  import opened ChunkGrid
  import opened Common

  const LIVE_PCM_QUEUE_CAPACITY: nat := 4

  /** One try_send that reached a live receiver, and whether the channel had room. */
  datatype Offer = Offer(chunk: Chunk, kept: bool)

  /** The channel of one consumer and the sources it asked for. `offers`, `delivered` and `discarded` log what was offered,
      what the consumer received and what was still queued when it went away. */
  datatype Channel = Channel(
    sources: set<nat>,
    open: bool,
    queued: seq<Chunk>,
    dropped: nat,
    offers: seq<Offer>,
    delivered: seq<Chunk>,
    discarded: seq<Chunk>)

  /** Ownership token of one consumer: the n-th attach and the generation it was given. */
  datatype Token = Token(serial: nat, generation: nat)

  datatype TapState = TapState(
    generation: nat,
    attachCount: nat,
    sender: Option<nat>,
    selected: Option<set<nat>>,
    channels: map<nat, Channel>)

  datatype AttachError = TapActive

  const DETACHED := TapState(0, 0, None, None, map[])

  function NextGeneration(generation: nat): nat { Max(SaturatingAdd(generation, 1), 1) }

  function Attach(t: TapState, sources: set<nat>): (TapState, Result<Token, AttachError>) {
    if t.sender.Some? then (t, Err(TapActive))
    else
      var serial, generation := t.attachCount + 1, NextGeneration(t.generation);
      (TapState(generation, serial, Some(serial), Some(sources),
                t.channels[serial := Channel(sources, true, [], 0, [], [], [])]),
       Ok(Token(serial, generation)))
  }

  predicate Accepts(t: TapState, source: nat) {
    t.selected.Some? && source in t.selected.value && t.sender.Some?
  }

  /** First half of publish, under the lock: the sender to use, if any. */
  function Select(t: TapState, source: nat): Option<nat> {
    if t.selected.Some? && source in t.selected.value then t.sender else None
  }

  function DetachCurrent(t: TapState): TapState { t.(sender := None, selected := None) }

  function Detach(t: TapState, generation: nat): TapState {
    if t.generation == generation then DetachCurrent(t) else t
  }

  /** Second half of publish, outside the lock: try_send on the cloned sender. */
  function TrySend(t: TapState, serial: nat, chunk: Chunk): TapState
    requires serial in t.channels
  {
    var c := t.channels[serial];
    if !c.open then DetachCurrent(t)
    else if |c.queued| < LIVE_PCM_QUEUE_CAPACITY then
      t.(channels := t.channels[serial := c.(queued := c.queued + [chunk], offers := c.offers + [Offer(chunk, true)])])
    else
      t.(channels := t.channels[serial := c.(dropped := c.dropped + 1, offers := c.offers + [Offer(chunk, false)])])
  }

  function Consume(t: TapState, serial: nat): TapState
    requires serial in t.channels && t.channels[serial].queued != []
  {
    var c := t.channels[serial];
    t.(channels := t.channels[serial := c.(queued := c.queued[1..], delivered := c.delivered + [c.queued[0]])])
  }

  function CloseReceiver(t: TapState, serial: nat): TapState
    requires serial in t.channels
  {
    var c := t.channels[serial];
    t.(channels := t.channels[serial := c.(open := false, queued := [], discarded := c.discarded + c.queued)])
  }

  /** The chunks that found room, in the order they were offered. */
  function Kept(offers: seq<Offer>): seq<Chunk> {
    if offers == [] then []
    else
      var init, o := offers[..|offers| - 1], offers[|offers| - 1];
      Kept(init) + (if o.kept then [o.chunk] else [])
  }

  /** Every chunk offered to a live consumer was delivered, is queued (at most four), was
      discarded with the receiver, or was counted as dropped; what was kept arrives in order. */
  ghost predicate Accounted(c: Channel) {
    && |c.queued| <= LIVE_PCM_QUEUE_CAPACITY
    && (c.open ==> c.discarded == [])
    && (!c.open ==> c.queued == [])
    && Kept(c.offers) == c.delivered + c.queued + c.discarded
    && |c.offers| == |c.delivered| + |c.queued| + |c.discarded| + c.dropped
  }

  ghost predicate TapInv(t: TapState) {
    && t.generation == Min(t.attachCount, U64_MAX)
    && (t.sender.Some? <==> t.selected.Some?)
    && (t.sender.Some? ==> t.sender.value == t.attachCount && t.attachCount in t.channels && t.channels[t.attachCount].open)
    && (forall n | n in t.channels :: 1 <= n <= t.attachCount && Accounted(t.channels[n]))
  }

  ghost predicate Issued(t: TapState, token: Token) {
    1 <= token.serial <= t.attachCount && token.generation == Min(token.serial, U64_MAX)
  }

  lemma AttachKeepsInv(t: TapState, sources: set<nat>)
    requires TapInv(t)
    ensures TapInv(Attach(t, sources).0)
    ensures Attach(t, sources).1.Ok? <==> t.sender.None?
    ensures Attach(t, sources).1.Ok? ==>
              && Issued(Attach(t, sources).0, Attach(t, sources).1.value)
              && Attach(t, sources).0.sender == Some(Attach(t, sources).1.value.serial)
              && Attach(t, sources).1.value.serial !in t.channels
  {}

  lemma OfferAccounts(c: Channel, chunk: Chunk)
    requires Accounted(c) && c.open
    ensures |c.queued| < LIVE_PCM_QUEUE_CAPACITY ==>
              Accounted(c.(queued := c.queued + [chunk], offers := c.offers + [Offer(chunk, true)]))
    ensures Accounted(c.(dropped := c.dropped + 1, offers := c.offers + [Offer(chunk, false)]))
  {
    KeptSnoc(c.offers, Offer(chunk, true));
    KeptSnoc(c.offers, Offer(chunk, false));
    assert c.delivered + (c.queued + [chunk]) + [] == (c.delivered + c.queued + c.discarded) + [chunk];
  }

  lemma TakeAccounts(c: Channel)
    requires Accounted(c)
    ensures c.queued != [] ==> Accounted(c.(queued := c.queued[1..], delivered := c.delivered + [c.queued[0]]))
    ensures Accounted(c.(open := false, queued := [], discarded := c.discarded + c.queued))
  {
    if c.queued != [] {
      assert c.delivered + c.queued + c.discarded == (c.delivered + [c.queued[0]]) + c.queued[1..] + c.discarded;
    }
    assert c.delivered + [] + (c.discarded + c.queued) == c.delivered + c.queued + c.discarded;
  }

  /** What one try_send does to each consumer's channel: the chunk is offered to the live receiver
      it was sent to, and kept at the end of its queue exactly if there is room. */
  lemma SentExactly(t: TapState, serial: nat, chunk: Chunk, other: nat)
    requires serial in t.channels && other in t.channels
    ensures var c, c' := t.channels[other], TrySend(t, serial, chunk).channels[other];
            if other != serial || !c.open then c' == c
            else
              && c'.offers == c.offers + [Offer(chunk, |c.queued| < LIVE_PCM_QUEUE_CAPACITY)]
              && c'.queued == (if |c.queued| < LIVE_PCM_QUEUE_CAPACITY then c.queued + [chunk] else c.queued)
              && c'.dropped == c.dropped + (if |c.queued| < LIVE_PCM_QUEUE_CAPACITY then 0 else 1)
              && c'.delivered == c.delivered && c'.discarded == c.discarded && c'.sources == c.sources && c'.open
  {}

  /** What receiving and dropping a receiver do to each channel: the oldest queued chunk goes to the
      consumer, and what is still queued goes with the receiver. */
  lemma ReceivedExactly(t: TapState, serial: nat, other: nat)
    requires serial in t.channels && other in t.channels
    ensures t.channels[serial].queued != [] ==>
              var c, c' := t.channels[other], Consume(t, serial).channels[other];
              if other != serial then c' == c
              else c' == c.(queued := c'.queued, delivered := c'.delivered)
                   && c.queued == [c.queued[0]] + c'.queued && c'.delivered == c.delivered + [c.queued[0]]
    ensures var c, c' := t.channels[other], CloseReceiver(t, serial).channels[other];
            if other != serial then c' == c
            else !c'.open && c'.queued == [] && c'.discarded == c.discarded + c.queued
                 && c' == c.(open := c'.open, queued := c'.queued, discarded := c'.discarded)
  {}

  lemma TrySendKeepsInv(t: TapState, serial: nat, chunk: Chunk)
    requires TapInv(t) && serial in t.channels
    ensures TapInv(TrySend(t, serial, chunk))
  {
    var c := t.channels[serial];
    if c.open { OfferAccounts(c, chunk); }
  }

  lemma ReceiverKeepsInv(t: TapState, serial: nat)
    requires TapInv(t) && serial in t.channels
    ensures t.channels[serial].queued != [] ==> TapInv(Consume(t, serial))
    ensures t.sender != Some(serial) ==> TapInv(CloseReceiver(t, serial))
  {
    TakeAccounts(t.channels[serial]);
  }

  lemma KeptSnoc(offers: seq<Offer>, o: Offer)
    ensures Kept(offers + [o]) == Kept(offers) + (if o.kept then [o.chunk] else [])
  {
    assert (offers + [o])[..|offers|] == offers;
  }

  /** Token ownership, exactly: detaching with a token of an earlier consumer leaves the
      current consumer attached unless that token's generation is the saturated one. */
  lemma StaleTokenDetaches(t: TapState, token: Token)
    requires TapInv(t) && Issued(t, token)
    requires t.sender.Some? && token.serial != t.sender.value
    ensures Detach(t, token.generation).sender == t.sender <==> token.generation < U64_MAX
  {}

  /** The tap after n consumers, each attached once the one before it was detached. */
  ghost function AttachedTimes(n: nat): TapState {
    if n == 0 then DETACHED else Attach(DetachCurrent(AttachedTimes(n - 1)), {}).0
  }

  lemma {:induction false} AttachedTimesIsValid(n: nat)
    ensures TapInv(AttachedTimes(n)) && AttachedTimes(n).attachCount == n
    ensures n > 0 ==> AttachedTimes(n).sender == Some(n)
  {
    if n > 0 {
      AttachedTimesIsValid(n - 1);
      AttachKeepsInv(DetachCurrent(AttachedTimes(n - 1)), {});
    }
  }

  /** The saturated case exists, 2^64 attachments away: the last token but one then detaches the
      consumer that came after its own. */
  lemma SaturatedTokenDetachesNewerConsumer()
    ensures var t, token := AttachedTimes(U64_MAX + 1), Token(U64_MAX, U64_MAX);
            TapInv(t) && Issued(t, token) && t.sender == Some(U64_MAX + 1) && Detach(t, token.generation).sender == None
  {
    AttachedTimesIsValid(U64_MAX + 1);
    hide AttachedTimes;
  }

  /** A token always detaches its own consumer. */
  lemma OwnTokenDetaches(t: TapState, token: Token)
    requires TapInv(t) && Issued(t, token)
    ensures Detach(t, token.generation).sender != Some(token.serial)
  {}

  /** The disconnected branch of publish is not guarded by a generation: a send on a sender
      cloned before its receiver went away detaches whoever is attached by then. */
  lemma TrySendDetachesExactlyWhenDisconnected(t: TapState, serial: nat, chunk: Chunk)
    requires TapInv(t) && serial in t.channels
    ensures TrySend(t, serial, chunk).sender != t.sender <==> t.sender.Some? && !t.channels[serial].open
  {}

  /** A concrete run in which that branch removes a newer consumer. */
  lemma LateSendCanDetachNewerConsumer(chunk: Chunk)
    ensures var t1 := Attach(DETACHED, {chunk.source}).0;
            var late := Select(t1, chunk.source);
            var t2 := CloseReceiver(Detach(t1, 1), 1);
            var t3 := Attach(t2, {chunk.source}).0;
            && late == Some(1) && t3.sender == Some(2) && TrySend(t3, 1, chunk).sender == None
  {
    var t1 := Attach(DETACHED, {chunk.source}).0;
    assert t1.channels[1].open;
    var t2 := CloseReceiver(Detach(t1, 1), 1);
    var t3 := Attach(t2, {chunk.source}).0;
    assert !t3.channels[1].open;
  }

  /** The shared tap object. Each method is one critical section or one try_send. */
  class LivePcmTap {
    var generation: nat
    var attachCount: nat
    var sender: Option<nat>
    var selected: Option<set<nat>>
    var channels: map<nat, Channel>

    ghost function View(): TapState
      reads this
    {
      TapState(generation, attachCount, sender, selected, channels)
    }

    constructor ()
      ensures View() == DETACHED && TapInv(View())
    {
      generation, attachCount, sender, selected, channels := 0, 0, None, None, map[];
    }

    method AttachConsumer(sources: set<nat>) returns (r: Result<Token, AttachError>)
      requires TapInv(View())
      modifies this
      ensures (View(), r) == Attach(old(View()), sources)
      ensures TapInv(View())
      ensures r.Ok? <==> old(sender).None?
    {
      AttachKeepsInv(View(), sources);
      if sender.Some? {
        return Err(TapActive);
      }
      generation := Max(SaturatingAdd(generation, 1), 1);
      attachCount := attachCount + 1;
      channels := channels[attachCount := Channel(sources, true, [], 0, [], [], [])];
      selected := Some(sources);
      sender := Some(attachCount);
      r := Ok(Token(attachCount, generation));
    }

    method DetachGeneration(owned: nat)
      requires TapInv(View())
      modifies this
      ensures View() == Detach(old(View()), owned)
      ensures TapInv(View())
      ensures old(generation) != owned ==> sender == old(sender)
    {
      if generation == owned {
        sender := None;
        selected := None;
      }
    }

    method SendOn(serial: nat, chunk: Chunk)
      requires TapInv(View()) && serial in channels
      modifies this
      ensures View() == TrySend(old(View()), serial, chunk)
      ensures TapInv(View())
      ensures old(channels[serial].open) ==> sender == old(sender)
    {
      TrySendKeepsInv(View(), serial, chunk);
      var c := channels[serial];
      if !c.open {
        sender := None;
        selected := None;
      } else if |c.queued| < LIVE_PCM_QUEUE_CAPACITY {
        channels := channels[serial := c.(queued := c.queued + [chunk], offers := c.offers + [Offer(chunk, true)])];
      } else {
        channels := channels[serial := c.(dropped := c.dropped + 1, offers := c.offers + [Offer(chunk, false)])];
      }
    }
  }
}

/** Round skipping over whole runs of one engine: what its peer book says about the statuses it was
    given, and where a status leaves the engine. */
module PeerRounds {
  import opened Sums
  import opened BftTypes
  import opened EngineSpec
  import opened EngineRuns
  import opened EngineLock
  import RoundSkip

  // ---- the peer book ----

  /** The height after the first `k` inputs of an engine that started at `start`. */
  function HeightAfter(start: nat, evs: seq<Event>, k: nat): nat
    requires k <= |evs|
  {
    if k == 0 then start else if evs[k - 1].EvNewHeight? then evs[k - 1].height else HeightAfter(start, evs, k - 1)
  }

  /** Input `i` is a status of `peer` for the height the engine is at after `k` inputs, received since
      it entered that height. */
  ghost predicate Reports(start: nat, evs: seq<Event>, k: nat, peer: Address, i: nat)
    requires k <= |evs|
  {
    && i < k && evs[i].EvRoundStatus? && evs[i].peer == peer && evs[i].peerHeight == HeightAfter(start, evs, k)
    && forall j :: i < j < k ==> !evs[j].EvNewHeight?
  }

  ghost predicate LastReport(start: nat, evs: seq<Event>, k: nat, peer: Address, i: nat)
    requires k <= |evs|
  {
    Reports(start, evs, k, peer, i) && forall j :: i < j < k ==> !Reports(start, evs, k, peer, j)
  }

  /** The book lists the peers that reported at this height, each with the stake it last reported and
      the highest round it reported. */
  ghost predicate BookIs(rounds: Rounds, start: nat, evs: seq<Event>, k: nat, peer: Address)
    requires k <= |evs|
  {
    && (peer in rounds <==> exists i: nat :: Reports(start, evs, k, peer, i))
    && (peer in rounds ==>
          && (exists i: nat :: LastReport(start, evs, k, peer, i) && evs[i].stake == rounds[peer].1)
          && (exists i: nat :: Reports(start, evs, k, peer, i) && evs[i].round == rounds[peer].0)
          && (forall i: nat :: Reports(start, evs, k, peer, i) ==> evs[i].round <= rounds[peer].0))
  }

  type Rounds = map<Address, (u32, nat)>

  /** The entry of one peer after one input: `live` says that the input is a status of that peer for
      the height of the engine. */
  predicate EntryAfter(was: Rounds, now: Rounds, live: bool, round: u32, stake: nat, peer: Address) {
    if live
    then peer in now && now[peer].1 == stake
         && now[peer].0 == (if peer in was && was[peer].0 > round then was[peer].0 else round)
    else (peer in now <==> peer in was) && (peer in was ==> now[peer] == was[peer])
  }

  predicate SamePeers(e: Engine, e': Engine) {
    e'.peers == e.peers && e'.height == e.height
  }

  lemma VotesKeepPeers(e: Engine, ev: Event)
    requires ev.EvPrevote? || ev.EvPrecommit?
    ensures SamePeers(e, Apply(e, ev).0)
  {
    if ev.EvPrevote? {
      var e2 := RecordPrevote(SettlePrevote(e, ev.vote), ev.vote, ev.stake);
      assert SamePeers(e, e2) && (ev.pick.Some? ==> SamePeers(e2, EnterPrecommit(e2, ev.pick.value).0));
    }
  }

  lemma OthersKeepPeers(e: Engine, ev: Event)
    requires !ev.EvNewHeight? && !ev.EvRoundStatus? && !ev.EvPrevote? && !ev.EvPrecommit?
    ensures SamePeers(e, Apply(e, ev).0)
  {
    if ev.EvCatchUp? {
      CatchUpLands(e, ev.target);
    }
  }

  lemma StatusPeers(e: Engine, ev: Event)
    requires ev.EvRoundStatus? && ev.peerHeight == e.height
    ensures SamePeers(NotePeer(e, ev.peer, ev.round, ev.stake), Apply(e, ev).0)
  {
    if ev.skip.Some? {
      CatchUpLands(NotePeer(e, ev.peer, ev.round, ev.stake), ev.skip.value);
    }
  }

  lemma PeersAfter(e: Engine, ev: Event)
    ensures var e' := Apply(e, ev).0;
            && e'.height == (if ev.EvNewHeight? then ev.height else e.height)
            && e'.peers == if ev.EvNewHeight? then PeerBook(map[])
                           else if ev.EvRoundStatus? && ev.peerHeight == e.height
                           then NotePeer(e, ev.peer, ev.round, ev.stake).peers else e.peers
  {
    if ev.EvPrevote? || ev.EvPrecommit? {
      VotesKeepPeers(e, ev);
    } else if ev.EvRoundStatus? {
      if ev.peerHeight == e.height {
        StatusPeers(e, ev);
      }
    } else if !ev.EvNewHeight? {
      OthersKeepPeers(e, ev);
    }
  }

  lemma StepBook(e: Engine, ev: Event, peer: Address)
    requires !ev.EvNewHeight?
    ensures var live := ev.EvRoundStatus? && ev.peerHeight == e.height && ev.peer == peer;
            EntryAfter(e.peers.rounds, Apply(e, ev).0.peers.rounds, live, if live then ev.round else 0,
                       if live then ev.stake else 0, peer)
  {
    PeersAfter(e, ev);
  }

  /** Reports after one more input. */
  lemma ReportsNext(start: nat, evs: seq<Event>, k: nat, peer: Address, i: nat)
    requires k < |evs|
    ensures Reports(start, evs, k + 1, peer, i)
       <==> if evs[k].EvNewHeight? then false
            else (i == k && evs[k].EvRoundStatus? && evs[k].peer == peer && evs[k].peerHeight == HeightAfter(start, evs, k))
                 || Reports(start, evs, k, peer, i)
  {
  }

  /** Input `k` adds no report of `peer`. */
  lemma BookStays(was: Rounds, now: Rounds, start: nat, evs: seq<Event>, k: nat, peer: Address)
    requires k < |evs| && BookIs(was, start, evs, k, peer) && !evs[k].EvNewHeight?
    requires !(evs[k].EvRoundStatus? && evs[k].peer == peer && evs[k].peerHeight == HeightAfter(start, evs, k))
    requires EntryAfter(was, now, false, 0, 0, peer)
    ensures BookIs(now, start, evs, k + 1, peer)
  {
    var k1 := k + 1;
    forall i: nat
      ensures Reports(start, evs, k1, peer, i) <==> Reports(start, evs, k, peer, i)
    {
      ReportsNext(start, evs, k, peer, i);
    }
    if peer in was {
      var i: nat :| LastReport(start, evs, k, peer, i) && evs[i].stake == was[peer].1;
      assert LastReport(start, evs, k1, peer, i);
    }
  }

  /** Input `k` is a report of `peer`. */
  lemma BookUpdated(was: Rounds, now: Rounds, start: nat, evs: seq<Event>, k: nat, peer: Address)
    requires k < |evs| && BookIs(was, start, evs, k, peer)
    requires evs[k].EvRoundStatus? && evs[k].peer == peer && evs[k].peerHeight == HeightAfter(start, evs, k)
    requires EntryAfter(was, now, true, evs[k].round, evs[k].stake, peer)
    ensures BookIs(now, start, evs, k + 1, peer)
  {
    var k1 := k + 1;
    forall i: nat
      ensures Reports(start, evs, k1, peer, i) <==> i == k || Reports(start, evs, k, peer, i)
    {
      ReportsNext(start, evs, k, peer, i);
    }
    assert LastReport(start, evs, k1, peer, k);
    assert Reports(start, evs, k1, peer, k);
    if peer in was {
      var i: nat :| Reports(start, evs, k, peer, i) && evs[i].round == was[peer].0;
      assert Reports(start, evs, k1, peer, i);
    }
  }

  lemma NothingReported(start: nat, evs: seq<Event>, k: nat, peer: Address)
    requires k < |evs| && evs[k].EvNewHeight?
    ensures BookIs(map[], start, evs, k + 1, peer)
  {
    var k1 := k + 1;
    forall i: nat
      ensures !Reports(start, evs, k1, peer, i)
    {
      ReportsNext(start, evs, k, peer, i);
    }
  }

  /** The whole book is told by the inputs. */
  ghost predicate BookTold(e: Engine, start: nat, evs: seq<Event>, k: nat)
    requires k <= |evs|
  {
    forall peer :: BookIs(e.peers.rounds, start, evs, k, peer)
  }

  lemma {:induction false} BookAfter(e: Engine, evs: seq<Event>, k: nat, peer: Address)
    requires k <= |evs| && e.peers == PeerBook(map[])
    ensures After(e, evs, k).height == HeightAfter(e.height, evs, k)
    ensures BookIs(After(e, evs, k).peers.rounds, e.height, evs, k, peer)
  {
    if k > 0 {
      var before, ev := After(e, evs, k - 1), evs[k - 1];
      BookAfter(e, evs, k - 1, peer);
      AfterStep(e, evs, k - 1);
      PeersAfter(before, ev);
      if ev.EvNewHeight? {
        NothingReported(e.height, evs, k - 1, peer);
      } else {
        StepBook(before, ev, peer);
        var was, now := before.peers.rounds, After(e, evs, k).peers.rounds;
        if ev.EvRoundStatus? && ev.peerHeight == before.height && ev.peer == peer {
          BookUpdated(was, now, e.height, evs, k - 1, peer);
        } else {
          BookStays(was, now, e.height, evs, k - 1, peer);
        }
      }
    } else {
      assert BookIs(map[], e.height, evs, 0, peer);
    }
  }

  /** The peer book over every run, told from the list of inputs. */
  lemma BookExact(height: nat, us: Address, total: u64, evs: seq<Event>, k: nat)
    requires k <= |evs|
    ensures BookTold(After(NewEngine(height, us, total), evs, k), height, evs, k)
  {
    var e := NewEngine(height, us, total);
    forall peer
      ensures BookIs(After(e, evs, k).peers.rounds, height, evs, k, peer)
    {
      BookAfter(e, evs, k, peer);
    }
  }

  // ---- the skip ----

  /** Nothing has happened in the round yet; the lock is that of `before`. */
  ghost predicate OpensRound(before: Engine, e: Engine) {
    && e.phase == Propose && e.proposedHash.None? && !e.ourPrevoteCast && !e.ourPrecommitCast
    && e.stagingBlock.None? && e.pendingPrevote.None? && e.pendingPrecommit.None?
    && e.books.prevotes == map[] && e.books.precommits == map[]
    && e.books.prevoteTally == map[] && e.books.precommitTally == map[]
    && e.lockedHash == before.lockedHash && e.lockedRound == before.lockedRound && e.lockedBlock == before.lockedBlock
    && e.us == before.us && e.height == before.height && e.total == before.total
  }

  /** Round `r` is ahead of `ours` and more than a third of the stake has reached it. */
  ghost predicate ThirdAt(e: Engine, ours: nat, r: u32) {
    e.total > 0 && RoundSkip.Reached(e.peers.rounds, ours, FPlusOneThreshold(e.total), r)
  }

  /** Where a status leaves the engine: at the largest round that more than a third of the reported
      stake has reached, freshly opened, or where it was if there is none ahead. */
  ghost predicate SkipsTo(before: Engine, e: Engine) {
    && e.round >= before.round
    && (forall r: u32 :: !ThirdAt(e, e.round, r))
    && (e.round > before.round ==> ThirdAt(e, before.round, e.round) && OpensRound(before, e))
    && (e.round == before.round ==> e == before.(peers := e.peers))
  }

  lemma ReachedFromHigher(peers: RoundSkip.Peers, ours: nat, higher: nat, threshold: nat, r: u32)
    requires ours <= higher && RoundSkip.Reached(peers, higher, threshold, r)
    ensures RoundSkip.Reached(peers, ours, threshold, r)
  {
  }

  lemma StatusSkips(e: Engine, ev: Event)
    requires ev.EvRoundStatus? && ev.peerHeight == e.height && Answerable(e, ev)
    ensures SkipsTo(e, Apply(e, ev).0) && Apply(e, ev).1 == Wait
  {
    var e1 := NotePeer(e, ev.peer, ev.round, ev.stake);
    var e' := Apply(e, ev).0;
    if ev.skip.Some? {
      CatchUpLands(e1, ev.skip.value);
    }
    forall r: u32
      ensures !ThirdAt(e', e'.round, r)
    {
      if ThirdAt(e', e'.round, r) {
        ReachedFromHigher(e'.peers.rounds, e.round, e'.round, FPlusOneThreshold(e.total), r);
      }
    }
  }

  /** A status for another height moves nothing; a higher one asks for a sync. */
  lemma OtherHeightIgnored(e: Engine, ev: Event)
    requires ev.EvRoundStatus? && ev.peerHeight != e.height
    ensures Apply(e, ev) == (e, if ev.peerHeight > e.height then SyncNeeded(ev.peerHeight) else Wait)
  {
  }

  /** Over every run: after a status of its height, an engine stands at the largest round that more
      than a third of the stake has reached, by what its peers reported at this height. */
  lemma RunSkips(height: nat, us: Address, total: u64, evs: seq<Event>, k: nat)
    requires k < |evs| && evs[k].EvRoundStatus? && evs[k].peerHeight == HeightAfter(height, evs, k)
    requires Answerable(After(NewEngine(height, us, total), evs, k), evs[k])
    ensures var e := NewEngine(height, us, total);
            SkipsTo(After(e, evs, k), After(e, evs, k + 1)) && BookTold(After(e, evs, k + 1), height, evs, k + 1)
  {
    var e := NewEngine(height, us, total);
    BookAfter(e, evs, k, us);
    AfterStep(e, evs, k);
    StatusSkips(After(e, evs, k), evs[k]);
    BookExact(height, us, total, evs, k + 1);
  }
}

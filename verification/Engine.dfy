/** The consensus engine as the object the validator loop drives. Every method updates the
    fields in place, with the branches of the node, and is proved to do to the state exactly
    what the corresponding function of `EngineSpec` does to its value. */
module EngineObject {
  import opened BftTypes
  import opened Sums
  import Spec = EngineSpec
  import RoundSkip

  /** The per-round scratchpad. */
  datatype RoundState = RoundState(
    height: nat,
    round: u32,
    phase: Phase,
    proposedHash: Option<Hash>,
    prevotes: map<Address, (Option<Hash>, nat)>,
    precommits: map<Address, (Option<Hash>, Bytes, nat)>,
    ourPrevoteCast: bool,
    ourPrecommitCast: bool,
    lockedHash: Option<Hash>,
    lockedRound: Option<u32>,
    lockedBlock: Option<Bytes>,
    stagingBlock: Option<(Hash, Bytes)>,
    total: u64)

  datatype VoteCollector = VoteCollector(prevoteTally: Spec.Tally, precommitTally: Spec.Tally)

  function NewRoundState(height: nat, round: u32, total: u64): RoundState {
    RoundState(height, round, Propose, None, map[], map[], false, false, None, None, None, None, total)
  }

  function NextRoundState(s: RoundState): RoundState {
    s.(round := if s.round < U32_MAX then s.round + 1 else s.round, phase := Propose, proposedHash := None,
       prevotes := map[], precommits := map[], ourPrevoteCast := false, ourPrecommitCast := false,
       stagingBlock := None)
  }

  class BftEngine {
    const us: Address
    var state: RoundState
    var collector: VoteCollector
    var pendingPrevote: Option<Vote>
    var pendingPrecommit: Option<Vote>
    var peerRounds: map<Address, (u32, nat)>

    /** The value of the object. */
    ghost function View(): Spec.Engine
      reads this
    {
      Spec.Engine(us, state.height, state.round, state.phase, state.proposedHash,
                  state.ourPrevoteCast, state.ourPrecommitCast, state.lockedHash, state.lockedRound,
                  state.lockedBlock, state.stagingBlock, state.total, pendingPrevote, pendingPrecommit,
                  Spec.Books(state.prevotes, state.precommits, collector.prevoteTally, collector.precommitTally),
                  Spec.PeerBook(peerRounds))
    }

    constructor (height: nat, us: Address, total: u64)
      ensures View() == Spec.NewEngine(height, us, total)
    {
      this.us := us;
      state := NewRoundState(height, 0, total);
      collector := VoteCollector(map[], map[]);
      pendingPrevote, pendingPrecommit := None, None;
      peerRounds := map[];
    }

    method NewHeight(height: nat, total: u64)
      modifies this
      ensures View() == Spec.NewHeight(old(View()), height, total)
    {
      state := NewRoundState(height, 0, total);
      collector := VoteCollector(map[], map[]);
      pendingPrevote, pendingPrecommit := None, None;
      peerRounds := map[];
    }

    method AdvanceRound()
      modifies this
      ensures View() == Spec.AdvanceRound(old(View()))
    {
      state := NextRoundState(state);
      collector := VoteCollector(map[], map[]);
      pendingPrevote, pendingPrecommit := None, None;
    }

    method CatchUpRound(target: u32)
      modifies this
      ensures View() == Spec.CatchUpRound(old(View()), target)
    {
      while state.round < target
        invariant Spec.CatchUpRound(View(), target) == Spec.CatchUpRound(old(View()), target)
        decreases target - state.round
      {
        AdvanceRound();
      }
    }

    method OnProposal(hash: Hash, proposer: Address, reg: Registry) returns (action: Action)
      modifies this
      ensures (View(), action) == Spec.OnProposal(old(View()), hash, proposer, reg)
    {
      if pendingPrevote.Some? && pendingPrevote.value.height == state.height && pendingPrevote.value.round == state.round
         && pendingPrevote.value.hash == Some(hash)
      {
        return BroadcastPrevote(pendingPrevote.value);
      }
      if state.phase != Propose {
        return Wait;
      }
      if reg.WeightedProposer(state.height, state.round) != Some(proposer) {
        return Wait;
      }
      if proposer in reg.barred {
        return Wait;
      }
      action := AcceptProposal(hash);
    }

    method OnOwnProposal(hash: Hash) returns (action: Action)
      modifies this
      ensures (View(), action) == Spec.OnOwnProposal(old(View()), hash)
    {
      if pendingPrevote.Some? && pendingPrevote.value.height == state.height && pendingPrevote.value.round == state.round
         && pendingPrevote.value.hash == Some(hash)
      {
        return BroadcastPrevote(pendingPrevote.value);
      }
      if state.phase != Propose {
        return Wait;
      }
      action := AcceptProposal(hash);
    }

    method AcceptProposal(hash: Hash) returns (action: Action)
      modifies this
      ensures (View(), action) == Spec.AcceptProposal(old(View()), hash)
    {
      if state.lockedHash.Some? && state.lockedRound.Some? && state.lockedHash.value != hash && state.lockedBlock.None?
         && state.round - state.lockedRound.value >= STALE_LOCK_ROUND_GAP
      {
        state := state.(lockedHash := None, lockedRound := None, stagingBlock := None);
      }
      state := state.(proposedHash := Some(hash), phase := Prevote);
      if !state.ourPrevoteCast {
        var voteHash := Some(hash);
        if state.lockedHash.Some? && state.lockedHash.value != hash {
          voteHash := None;
        }
        action := EmitPrevote(Vote(state.height, state.round, voteHash, us, []));
      } else {
        action := Wait;
      }
    }

    method EmitPrevote(v: Vote) returns (action: Action)
      modifies this`pendingPrevote
      ensures (View(), action) == Spec.EmitPrevote(old(View()), v)
    {
      if pendingPrevote.Some? && pendingPrevote.value.height == v.height
         && pendingPrevote.value.round == v.round && pendingPrevote.value.validator == v.validator
      {
        return if pendingPrevote.value == v then BroadcastPrevote(v) else Wait;
      }
      pendingPrevote := Some(v);
      action := BroadcastPrevote(v);
    }

    method EmitPrecommit(v: Vote) returns (action: Action)
      modifies this`pendingPrecommit
      ensures (View(), action) == Spec.EmitPrecommit(old(View()), v)
    {
      if pendingPrecommit.Some? && pendingPrecommit.value.height == v.height
         && pendingPrecommit.value.round == v.round && pendingPrecommit.value.validator == v.validator
      {
        return if pendingPrecommit.value == v then BroadcastPrecommit(v) else Wait;
      }
      pendingPrecommit := Some(v);
      action := BroadcastPrecommit(v);
    }

    method RecordPrevote(v: Vote, stake: nat)
      modifies this`state, this`collector
      ensures View() == Spec.RecordPrevote(old(View()), v, stake)
    {
      state := state.(prevotes := state.prevotes[v.validator := (v.hash, stake)]);
      collector := collector.(prevoteTally := Spec.AddWeight(collector.prevoteTally, v.hash, stake));
    }

    /** Takes a prevote into the round's books, or refuses it. */
    method CountPrevote(v: Vote, stake: nat) returns (counted: bool)
      modifies this
      ensures counted == Spec.CountsPrevote(old(View()), v)
      ensures var settled := Spec.SettlePrevote(old(View()), v);
              View() == if counted then Spec.RecordPrevote(settled, v, stake) else settled
    {
      if v.height != state.height || v.round != state.round {
        return false;
      }
      if v.validator == us && pendingPrevote.Some? {
        if pendingPrevote.value != v {
          return false;
        }
        pendingPrevote := None;
      }
      if v.validator in state.prevotes {
        return false;
      }
      RecordPrevote(v, stake);
      return true;
    }

    /** Returns, beside the action, the answer the tally scan gave. */
    method OnPrevoteWeighted(v: Vote, stake: nat) returns (action: Action, ghost pick: Option<Option<Hash>>)
      modifies this
      ensures Spec.Answerable(old(View()), Spec.EvPrevote(v, stake, pick))
      ensures (View(), action) == Spec.OnPrevote(old(View()), v, stake, pick)
    {
      pick := None;
      action := Wait;
      var counted := CountPrevote(v, stake);
      if counted {
        var winner := FindSupermajority(collector.prevoteTally, state.total);
        pick := winner;
        if winner.Some? && state.phase == Prevote {
          action := EnterPrecommit(winner.value);
        }
      }
    }

    method EnterPrecommit(hash: Option<Hash>) returns (action: Action)
      modifies this
      ensures (View(), action) == Spec.EnterPrecommit(old(View()), hash)
    {
      state := state.(phase := Precommit);
      if hash.Some? {
        MoveLock(hash.value);
      }
      if !state.ourPrecommitCast {
        action := EmitPrecommit(Vote(state.height, state.round, hash, us, []));
      } else {
        action := Wait;
      }
    }

    method MoveLock(hash: Hash)
      modifies this`state
      ensures View() == Spec.Lock(old(View()), hash)
    {
      if state.lockedHash != Some(hash) {
        state := state.(lockedBlock := None);
      }
      state := state.(lockedHash := Some(hash), lockedRound := Some(state.round));
      var staged := state.stagingBlock;
      state := state.(stagingBlock := None);
      if staged.Some? && staged.value.0 == hash {
        state := state.(lockedBlock := Some(staged.value.1));
      }
    }

    method RecordPrecommit(v: Vote, stake: nat)
      modifies this`state, this`collector
      ensures View() == Spec.RecordPrecommit(old(View()), v, stake)
    {
      state := state.(precommits := state.precommits[v.validator := (v.hash, v.signature, stake)]);
      collector := collector.(precommitTally := Spec.AddWeight(collector.precommitTally, v.hash, stake));
    }

    /** Takes a precommit into the round's books, or refuses it. */
    method CountPrecommit(v: Vote, stake: nat) returns (counted: bool)
      modifies this
      ensures counted == Spec.CountsPrecommit(old(View()), v)
      ensures var settled := Spec.SettlePrecommit(old(View()), v);
              View() == if counted then Spec.RecordPrecommit(settled, v, stake) else settled
    {
      if v.height != state.height || v.round != state.round {
        return false;
      }
      if v.validator == us && pendingPrecommit.Some? {
        if pendingPrecommit.value != v {
          return false;
        }
        pendingPrecommit := None;
      }
      if v.validator in state.precommits {
        return false;
      }
      RecordPrecommit(v, stake);
      return true;
    }

    method OnPrecommitWeighted(v: Vote, stake: nat) returns (action: Action, ghost pick: Option<Option<Hash>>)
      modifies this
      ensures Spec.Answerable(old(View()), Spec.EvPrecommit(v, stake, pick))
      ensures (View(), action) == Spec.OnPrecommit(old(View()), v, stake, pick)
    {
      pick := None;
      action := Wait;
      var counted := CountPrecommit(v, stake);
      if counted {
        var winner := FindSupermajority(collector.precommitTally, state.total);
        pick := winner;
        match winner {
          case None =>
          case Some(None) => action := SkipRound;
          case Some(Some(hash)) =>
            var justification := CollectJustification(state.precommits, hash);
            state := state.(phase := Finalize);
            action := FinalizeBlock(state.height, state.round, hash, justification);
        }
      }
    }

    method OnTimeout() returns (action: Action)
      modifies this
      ensures (View(), action) == Spec.OnTimeout(old(View()))
    {
      if pendingPrevote.Some? {
        return BroadcastPrevote(pendingPrevote.value);
      }
      if pendingPrecommit.Some? {
        return BroadcastPrecommit(pendingPrecommit.value);
      }
      match state.phase {
        case Propose =>
          state := state.(phase := Prevote);
          if !state.ourPrevoteCast {
            action := EmitPrevote(Vote(state.height, state.round, None, us, []));
          } else {
            action := Wait;
          }
        case Prevote =>
          state := state.(phase := Precommit);
          if !state.ourPrecommitCast {
            action := EmitPrecommit(Vote(state.height, state.round, None, us, []));
          } else {
            action := Wait;
          }
        case Precommit =>
          action := if state.round >= MAX_ROUND then SkipRound else TimeoutAdvanceRound;
        case Finalize =>
          action := Wait;
      }
    }

    /** Returns, beside the action, the round the peer scan found. */
    method OnRoundStatusWeighted(peerHeight: nat, peerRound: u32, peer: Address, stake: nat)
      returns (action: Action, ghost target: Option<u32>)
      modifies this
      ensures Spec.Answerable(old(View()), Spec.EvRoundStatus(peerHeight, peerRound, peer, stake, target))
      ensures (View(), action) == Spec.OnRoundStatus(old(View()), peerHeight, peerRound, peer, stake, target)
    {
      target := None;
      action := Wait;
      if peerHeight > state.height {
        return SyncNeeded(peerHeight), target;
      }
      if peerHeight < state.height {
        return;
      }
      var seen: u32 := if peer in peerRounds then peerRounds[peer].0 else 0;
      peerRounds := peerRounds[peer := (if peerRound >= seen then peerRound else seen, stake)];
      var t := FPlusOneRound();
      target := t;
      if t.Some? && t.value > state.round {
        CatchUpRound(t.value);
      }
    }

    /** The largest round that more than a third of the stake has reached ahead of us. */
    method FPlusOneRound() returns (t: Option<u32>)
      ensures RoundSkip.IsScanAnswer(peerRounds, state.round, state.total, FPlusOneThreshold(state.total), t)
    {
      if state.total == 0 {
        return None;
      }
      t := RoundSkip.Scan(peerRounds, state.round, FPlusOneThreshold(state.total));
    }

    /** The largest round that a supermajority of the stake has reached ahead of us. */
    method PeerSupermajorityHigherRound() returns (t: Option<u32>)
      ensures RoundSkip.IsScanAnswer(peerRounds, state.round, state.total, SupermajorityThreshold(state.total), t)
    {
      if state.total == 0 {
        return None;
      }
      t := RoundSkip.Scan(peerRounds, state.round, SupermajorityThreshold(state.total));
    }

    method StashProposalBytes(hash: Hash, bytes: Bytes)
      modifies this`state
      ensures View() == Spec.Stash(old(View()), hash, bytes)
    {
      state := state.(stagingBlock := Some((hash, bytes)));
    }

    method LockedProposalBytes() returns (r: Option<(Hash, Bytes)>)
      ensures r == Spec.LockedProposalBytes(View())
    {
      if state.lockedHash.Some? && state.lockedBlock.Some? {
        r := Some((state.lockedHash.value, state.lockedBlock.value));
      } else {
        r := None;
      }
    }

    method MarkPrevoteCast()
      modifies this`state
      ensures View() == old(View()).(ourPrevoteCast := true)
    {
      state := state.(ourPrevoteCast := true);
    }

    method MarkPrecommitCast()
      modifies this`state
      ensures View() == old(View()).(ourPrecommitCast := true)
    {
      state := state.(ourPrecommitCast := true);
    }
  }

  /** The collector's scan: the first entry at the threshold, in whatever order the entries come. */
  method FindSupermajority(tally: Spec.Tally, total: u64) returns (pick: Option<Option<Hash>>)
    ensures Spec.IsSupermajority(tally, total, pick)
  {
    var rest := tally.Keys;
    while rest != {}
      invariant rest <= tally.Keys
      invariant forall h :: h in tally && h !in rest ==> tally[h] < SupermajorityThreshold(total)
      decreases |rest|
    {
      var h :| h in rest;
      if tally[h] >= SupermajorityThreshold(total) {
        return Some(h);
      }
      rest := rest - {h};
    }
    return None;
  }

  /** The loop that copies the precommits for the finalized hash into the justification. */
  method CollectJustification(precommits: map<Address, (Option<Hash>, Bytes, nat)>, hash: Hash)
    returns (j: map<Address, SignedPrecommit>)
    ensures j == map a | a in precommits && precommits[a].0 == Some(hash)
                   :: SignedPrecommit(precommits[a].1, precommits[a].2)
  {
    j := map[];
    var rest := precommits.Keys;
    while rest != {}
      invariant rest <= precommits.Keys
      invariant j == map a | a in precommits && a !in rest && precommits[a].0 == Some(hash)
                       :: SignedPrecommit(precommits[a].1, precommits[a].2)
      decreases |rest|
    {
      var a :| a in rest;
      if precommits[a].0 == Some(hash) {
        j := j[a := SignedPrecommit(precommits[a].1, precommits[a].2)];
      }
      rest := rest - {a};
    }
  }
}

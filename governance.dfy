/**
 * The governance contract: proposals are created, voted on, finalized,
 * executed after a timelock, or cancelled by their proposer.
 *
 * The model keeps the contract's storage as written: every field lives in
 * a slot of `store`, and every operation reads and writes slots in the
 * order the contract does. The operations are specified on every storage
 * state; the invariant `GovInv` describes the states the operations can
 * reach from an empty store, and each operation preserves it.
 */
module Governance {
  import opened Ledger

  // Proposal status values, as stored (u8).
  const PENDING: nat := 0
  const ACTIVE: nat := 1
  const SUCCEEDED: nat := 2
  const DEFEATED: nat := 3
  const EXECUTED: nat := 4
  const CANCELLED: nat := 5

  const PROPOSAL_THRESHOLD: nat := 10000
  const VOTING_PERIOD: nat := 17280
  const VOTING_DELAY: nat := 144
  const EXECUTION_DELAY: nat := 2880
  /** The absolute quorum that `finalizeProposal` compares for+against with. */
  const QUORUM_VOTES: nat := 100000
  /** What the stubbed `getVotingPower` returns for every address. */
  const STUB_POWER: nat := 10000

  datatype GovError =
    | InsufficientPower
    | VotingNotStarted
    | VotingEnded
    | AlreadyVoted
    | NoVotingPower
    | VotingNotEnded
    | AlreadyFinalized
    | NotSucceeded
    | TimelockActive
    | NotProposer
    | AlreadyExecuted

  /** `getProposalPointer`: the slot of one field of a proposal. */
  function ProposalPointer(id: nat, field: string): Key
  {
    Key("proposal", Some(id), None, field)
  }

  /** `getUserVotePointer`: the slot of one field of a voter's ballot. */
  function UserVotePointer(id: nat, user: Address, field: string): Key
  {
    Key("vote", Some(id), Some(user), field)
  }

  /** Distinct tuples give distinct slots, and proposal and ballot slots never meet. */
  lemma PointersInjective(id: nat, id': nat, user: Address, user': Address, f: string, f': string)
    ensures ProposalPointer(id, f) == ProposalPointer(id', f') <==> id == id' && f == f'
    ensures UserVotePointer(id, user, f) == UserVotePointer(id', user', f') <==> id == id' && user == user' && f == f'
    ensures ProposalPointer(id, f) != UserVotePointer(id', user', f')
  {
  }

  /** The against-votes setter and getter name different slots. */
  lemma AgainstSlotsDiffer(id: nat)
    ensures ProposalPointer(id, "against Votes") != ProposalPointer(id, "againstVotes")
  {
  }

  /** `getVotingPower`: a stub that never falls short of the threshold. */
  function VotingPower(voter: Address): (power: nat)
    ensures power >= PROPOSAL_THRESHOLD && power > 0
  {
    STUB_POWER
  }

  /**
   * The slot the setter writes for the tally of `support`: 1 is for,
   * 0 is against (the setter writes "against Votes"), 2 is abstain.
   */
  function TallyWriteSlot(id: nat, support: nat): Key
    requires support < 3
  {
    ProposalPointer(id, if support == 1 then "forVotes" else if support == 0 then "against Votes" else "abstainVotes")
  }

  /** The slot the getter reads for the tally of `support` (the against getter reads "againstVotes"). */
  function TallyReadSlot(id: nat, support: nat): Key
    requires support < 3
  {
    ProposalPointer(id, if support == 1 then "forVotes" else if support == 0 then "againstVotes" else "abstainVotes")
  }

  /** The decision rule of `finalizeProposal`: quorum reached and more for than against. */
  predicate Passes(forVotes: nat, againstVotes: nat)
  {
    forVotes + againstVotes >= QUORUM_VOTES && forVotes > againstVotes
  }

  /** The slots `createProposal` writes for proposal `id`. */
  function NewProposal(m: Store, id: nat, proposer: Address, target: Address, votingStart: nat): Store
  {
    m[ProposalPointer(id, "proposer") := proposer]
     [ProposalPointer(id, "target") := target]
     [ProposalPointer(id, "votingStart") := votingStart]
     [ProposalPointer(id, "votingEnd") := votingStart + VOTING_PERIOD]
     [ProposalPointer(id, "status") := PENDING]
     [ProposalPointer(id, "forVotes") := 0]
     [ProposalPointer(id, "against Votes") := 0]
     [ProposalPointer(id, "abstainVotes") := 0]
  }

  /**
   * The slots a successful `castVote` writes: the ballot, then, if
   * `support` is 0, 1 or 2, the tally read through the getter plus the
   * weight, written through the setter.
   */
  function RecordVote(m: Store, id: nat, voter: Address, support: U8): Store
  {
    var power := VotingPower(voter);
    var m1 := m[UserVotePointer(id, voter, "voted") := 1]
               [UserVotePointer(id, voter, "support") := support]
               [UserVotePointer(id, voter, "weight") := power];
    if support < 3 then m1[TallyWriteSlot(id, support) := Read(m, TallyReadSlot(id, support)) + power] else m1
  }

  // ---------------------------------------------------------------------
  // The invariant of reachable states
  // ---------------------------------------------------------------------

  /** The ballots cast on proposal `id` with the given support, one "voted" slot each. */
  ghost function Ballots(m: Store, id: nat, support: nat): set<Key>
  {
    set k | k in m && k.tag == "vote" && k.id == Some(id) && k.addr.Some? && k.field == "voted"
                   && ReadU8(m, UserVotePointer(id, k.addr.value, "support")) == support
  }

  /** The status values that any operation ever stores. */
  predicate StoredStatus(s: nat)
  {
    s == PENDING || s == DEFEATED || s == CANCELLED
  }

  /** What a ballot slot of a reachable state satisfies. */
  ghost predicate BallotSlot(m: Store, k: Key, counter: nat)
    requires k in m
  {
    && k.id.Some? && 1 <= k.id.value <= counter && k.addr.Some?
    && Read(m, ProposalPointer(k.id.value, "status")) != PENDING
    && (k.field == "voted" ==> m[k] == 1)
    && (k.field == "weight" ==> m[k] == VotingPower(k.addr.value))
  }

  /**
   * The for and abstain slots hold the recorded weight of the matching
   * ballots. The against slot holds one weight as soon as anyone voted
   * against: each against vote overwrites it with 0 + weight.
   */
  ghost predicate TallyMatches(m: Store, id: nat)
  {
    && Read(m, ProposalPointer(id, "forVotes")) == STUB_POWER * |Ballots(m, id, 1)|
    && Read(m, ProposalPointer(id, "abstainVotes")) == STUB_POWER * |Ballots(m, id, 2)|
    && Read(m, ProposalPointer(id, "against Votes")) == if Ballots(m, id, 0) == {} then 0 else STUB_POWER
  }

  /** The against-votes getter's slot is never written. */
  ghost predicate GetterSlotUnused(m: Store)
  {
    forall id: nat :: ProposalPointer(id, "againstVotes") !in m
  }

  /** ACTIVE, SUCCEEDED and EXECUTED are never stored. */
  ghost predicate StatusesStored(m: Store)
  {
    forall id: nat :: StoredStatus(Read(m, ProposalPointer(id, "status")))
  }

  /** Only created proposals have a voting window, and each window is VOTING_PERIOD long. */
  ghost predicate WindowsOfCreated(m: Store, counter: nat)
  {
    && (forall id: nat :: ProposalPointer(id, "votingEnd") in m ==> 1 <= id <= counter)
    && (forall id: nat :: 1 <= id <= counter ==>
          Read(m, ProposalPointer(id, "votingEnd")) == Read(m, ProposalPointer(id, "votingStart")) + VOTING_PERIOD)
  }

  ghost predicate BallotSlotsValid(m: Store, counter: nat)
  {
    forall k :: k in m && k.tag == "vote" ==> BallotSlot(m, k, counter)
  }

  ghost predicate TalliesMatch(m: Store)
  {
    forall id: nat :: TallyMatches(m, id)
  }

  /** The invariant of every state reachable from the empty store. */
  ghost predicate GovInv(m: Store, counter: nat)
  {
    && GetterSlotUnused(m)
    && StatusesStored(m)
    && WindowsOfCreated(m, counter)
    && BallotSlotsValid(m, counter)
    && TalliesMatch(m)
  }

  /** Two stores that agree on every ballot slot. */
  ghost predicate SameBallotSlots(m: Store, m': Store)
  {
    forall k :: (k in m || k in m') && k.tag == "vote" ==> k in m && k in m' && m[k] == m'[k]
  }

  lemma BallotsOfSameSlots(m: Store, m': Store, id: nat, s: nat)
    requires SameBallotSlots(m, m')
    ensures Ballots(m, id, s) == Ballots(m', id, s)
  {
    forall k: Key | k.tag == "vote"
      ensures Read(m, k) == Read(m', k)
    {
      if k in m || k in m' {
        assert k in m && k in m' && m[k] == m'[k];
      }
    }
    forall k | k in Ballots(m, id, s)
      ensures k in Ballots(m', id, s)
    {
      assert Read(m, UserVotePointer(id, k.addr.value, "support")) == Read(m', UserVotePointer(id, k.addr.value, "support"));
    }
    forall k | k in Ballots(m', id, s)
      ensures k in Ballots(m, id, s)
    {
      assert Read(m, UserVotePointer(id, k.addr.value, "support")) == Read(m', UserVotePointer(id, k.addr.value, "support"));
    }
  }

  /** A ballot belongs to a created proposal. */
  lemma BallotsOfCreated(m: Store, counter: nat, id: nat, s: nat)
    requires BallotSlotsValid(m, counter)
    requires id == 0 || id > counter
    ensures Ballots(m, id, s) == {}
  {
    assert forall k :: k in Ballots(m, id, s) ==> BallotSlot(m, k, counter);
  }

  /** A proposal whose stored status is PENDING has no ballots, so its tallies read 0. */
  lemma PendingHasNoBallots(m: Store, counter: nat, id: nat)
    requires GovInv(m, counter)
    requires Read(m, ProposalPointer(id, "status")) == PENDING
    ensures forall s: nat :: Ballots(m, id, s) == {}
    ensures Read(m, ProposalPointer(id, "forVotes")) == 0
    ensures Read(m, ProposalPointer(id, "abstainVotes")) == 0
    ensures Read(m, ProposalPointer(id, "against Votes")) == 0
  {
    forall s: nat
      ensures Ballots(m, id, s) == {}
    {
      assert forall k :: k in Ballots(m, id, s) ==> BallotSlot(m, k, counter);
    }
    assert TallyMatches(m, id);
  }

  /**
   * Whatever ids, statuses and times, no proposal of a reachable state can
   * pass: `finalizeProposal` accepts only PENDING (ACTIVE is never stored),
   * a PENDING proposal has no votes, and zero votes miss the quorum.
   */
  lemma FinalizeNeverPasses(m: Store, counter: nat, id: nat)
    requires GovInv(m, counter)
    requires ReadU8(m, ProposalPointer(id, "status")) == PENDING || ReadU8(m, ProposalPointer(id, "status")) == ACTIVE
    ensures Read(m, ProposalPointer(id, "status")) == PENDING
    ensures !Passes(Read(m, ProposalPointer(id, "forVotes")), Read(m, ProposalPointer(id, "againstVotes")))
  {
    assert StoredStatus(Read(m, ProposalPointer(id, "status")));
    PendingHasNoBallots(m, counter, id);
  }

  /** The status slot of a reachable state reads, as a u8, one of the stored values. */
  lemma StatusReadsStored(m: Store, counter: nat, id: nat)
    requires GovInv(m, counter)
    ensures StoredStatus(ReadU8(m, ProposalPointer(id, "status")))
    ensures ReadU8(m, ProposalPointer(id, "status")) == Read(m, ProposalPointer(id, "status"))
  {
    assert StoredStatus(Read(m, ProposalPointer(id, "status")));
  }

  /** The empty store of a fresh deployment satisfies the invariant. */
  lemma EmptyStoreValid()
    ensures GovInv(map[], 0)
  {
    forall id: nat
      ensures TallyMatches(map[], id)
    {
      assert Ballots(map[], id, 0) == {} && Ballots(map[], id, 1) == {} && Ballots(map[], id, 2) == {};
    }
  }

  // createProposal

  /** `createProposal` writes no slot outside the new proposal. */
  lemma NewProposalFrame(m: Store, id: nat, proposer: Address, target: Address, votingStart: nat, k: Key)
    requires k.tag != "proposal" || k.id != Some(id)
    ensures (k in NewProposal(m, id, proposer, target, votingStart)) == (k in m)
    ensures Read(NewProposal(m, id, proposer, target, votingStart), k) == Read(m, k)
  {
  }

  /** What the new proposal's slots read after `createProposal`. */
  lemma NewProposalReads(m: Store, id: nat, proposer: Address, target: Address, votingStart: nat)
    ensures var m' := NewProposal(m, id, proposer, target, votingStart);
      && Read(m', ProposalPointer(id, "proposer")) == proposer
      && Read(m', ProposalPointer(id, "votingStart")) == votingStart
      && Read(m', ProposalPointer(id, "votingEnd")) == votingStart + VOTING_PERIOD
      && Read(m', ProposalPointer(id, "status")) == PENDING
      && Read(m', ProposalPointer(id, "forVotes")) == 0
      && Read(m', ProposalPointer(id, "against Votes")) == 0
      && Read(m', ProposalPointer(id, "abstainVotes")) == 0
      && (ProposalPointer(id, "againstVotes") !in m' <==> ProposalPointer(id, "againstVotes") !in m)
  {
  }

  lemma CreateKeepsGetterSlot(m: Store, id: nat, proposer: Address, target: Address, votingStart: nat)
    requires GetterSlotUnused(m)
    ensures GetterSlotUnused(NewProposal(m, id, proposer, target, votingStart))
  {
    forall id': nat
      ensures ProposalPointer(id', "againstVotes") !in NewProposal(m, id, proposer, target, votingStart)
    {
      if id' == id {
        NewProposalReads(m, id, proposer, target, votingStart);
      } else {
        NewProposalFrame(m, id, proposer, target, votingStart, ProposalPointer(id', "againstVotes"));
      }
    }
  }

  lemma CreateKeepsStatuses(m: Store, id: nat, proposer: Address, target: Address, votingStart: nat)
    requires StatusesStored(m)
    ensures StatusesStored(NewProposal(m, id, proposer, target, votingStart))
  {
    var m' := NewProposal(m, id, proposer, target, votingStart);
    forall id': nat
      ensures StoredStatus(Read(m', ProposalPointer(id', "status")))
    {
      if id' == id {
        NewProposalReads(m, id, proposer, target, votingStart);
      } else {
        NewProposalFrame(m, id, proposer, target, votingStart, ProposalPointer(id', "status"));
        assert StoredStatus(Read(m, ProposalPointer(id', "status")));
      }
    }
  }

  lemma CreateKeepsWindows(m: Store, counter: nat, proposer: Address, target: Address, votingStart: nat)
    requires WindowsOfCreated(m, counter)
    ensures WindowsOfCreated(NewProposal(m, counter + 1, proposer, target, votingStart), counter + 1)
  {
    var id := counter + 1;
    var m' := NewProposal(m, id, proposer, target, votingStart);
    NewProposalReads(m, id, proposer, target, votingStart);
    forall id': nat | id' != id
      ensures (ProposalPointer(id', "votingEnd") in m') == (ProposalPointer(id', "votingEnd") in m)
      ensures Read(m', ProposalPointer(id', "votingEnd")) == Read(m, ProposalPointer(id', "votingEnd"))
      ensures Read(m', ProposalPointer(id', "votingStart")) == Read(m, ProposalPointer(id', "votingStart"))
    {
      NewProposalFrame(m, id, proposer, target, votingStart, ProposalPointer(id', "votingEnd"));
      NewProposalFrame(m, id, proposer, target, votingStart, ProposalPointer(id', "votingStart"));
    }
  }

  lemma CreateKeepsBallots(m: Store, counter: nat, proposer: Address, target: Address, votingStart: nat)
    requires BallotSlotsValid(m, counter)
    ensures SameBallotSlots(m, NewProposal(m, counter + 1, proposer, target, votingStart))
    ensures BallotSlotsValid(NewProposal(m, counter + 1, proposer, target, votingStart), counter + 1)
  {
    var id := counter + 1;
    var m' := NewProposal(m, id, proposer, target, votingStart);
    forall k: Key | k.tag == "vote"
      ensures (k in m') == (k in m) && Read(m', k) == Read(m, k)
    {
      NewProposalFrame(m, id, proposer, target, votingStart, k);
    }
    forall k | k in m' && k.tag == "vote"
      ensures BallotSlot(m', k, id)
    {
      assert BallotSlot(m, k, counter);
      NewProposalFrame(m, id, proposer, target, votingStart, ProposalPointer(k.id.value, "status"));
    }
  }

  lemma CreateKeepsTallies(m: Store, counter: nat, proposer: Address, target: Address, votingStart: nat)
    requires BallotSlotsValid(m, counter) && TalliesMatch(m)
    ensures TalliesMatch(NewProposal(m, counter + 1, proposer, target, votingStart))
  {
    var id := counter + 1;
    var m' := NewProposal(m, id, proposer, target, votingStart);
    CreateKeepsBallots(m, counter, proposer, target, votingStart);
    forall id': nat
      ensures TallyMatches(m', id')
    {
      BallotsOfSameSlots(m, m', id', 0);
      BallotsOfSameSlots(m, m', id', 1);
      BallotsOfSameSlots(m, m', id', 2);
      if id' == id {
        BallotsOfCreated(m, counter, id, 0);
        BallotsOfCreated(m, counter, id, 1);
        BallotsOfCreated(m, counter, id, 2);
        NewProposalReads(m, id, proposer, target, votingStart);
      } else {
        assert TallyMatches(m, id');
        NewProposalFrame(m, id, proposer, target, votingStart, ProposalPointer(id', "forVotes"));
        NewProposalFrame(m, id, proposer, target, votingStart, ProposalPointer(id', "against Votes"));
        NewProposalFrame(m, id, proposer, target, votingStart, ProposalPointer(id', "abstainVotes"));
      }
    }
  }

  /** `createProposal` keeps the invariant, with the counter moved to the new id. */
  lemma CreatePreserves(m: Store, counter: nat, proposer: Address, target: Address, votingStart: nat)
    ensures GovInv(m, counter) ==> GovInv(NewProposal(m, counter + 1, proposer, target, votingStart), counter + 1)
  {
    if GovInv(m, counter) {
      CreateKeepsGetterSlot(m, counter + 1, proposer, target, votingStart);
      CreateKeepsStatuses(m, counter + 1, proposer, target, votingStart);
      CreateKeepsWindows(m, counter, proposer, target, votingStart);
      CreateKeepsBallots(m, counter, proposer, target, votingStart);
      CreateKeepsTallies(m, counter, proposer, target, votingStart);
    }
  }

  // castVote

  /** A successful `castVote` writes no proposal slot but the tally it adds to. */
  lemma RecordVoteFrame(m: Store, id: nat, voter: Address, support: U8, k: Key)
    requires k.tag == "proposal"
    requires support < 3 ==> k != TallyWriteSlot(id, support)
    ensures (k in RecordVote(m, id, voter, support)) == (k in m)
    ensures Read(RecordVote(m, id, voter, support), k) == Read(m, k)
  {
  }

  /** The ballots after a vote: the voter's ballot joins the set of its support. */
  lemma BallotsAfterVote(m: Store, id: nat, voter: Address, support: U8, id': nat, s: nat)
    requires UserVotePointer(id, voter, "voted") !in m
    ensures Ballots(RecordVote(m, id, voter, support), id', s)
         == Ballots(m, id', s) + (if id' == id && s == support then {UserVotePointer(id, voter, "voted")} else {})
  {
    var m' := RecordVote(m, id, voter, support);
    var v := UserVotePointer(id, voter, "voted");
    forall k
      ensures k in Ballots(m', id', s) <==> k in Ballots(m, id', s) || (id' == id && s == support && k == v)
    {
      if k.tag == "vote" && k.id == Some(id') && k.addr.Some? && k.field == "voted" {
        var sp := UserVotePointer(id', k.addr.value, "support");
        if k == v {
          assert Read(m', sp) == support;
        } else {
          assert sp != UserVotePointer(id, voter, "support");
          assert Read(m', sp) == Read(m, sp);
        }
      }
    }
  }

  lemma VoteKeepsProposalSlots(m: Store, counter: nat, id: nat, voter: Address, support: U8)
    requires GetterSlotUnused(m) && StatusesStored(m) && WindowsOfCreated(m, counter)
    ensures var m' := RecordVote(m, id, voter, support);
      GetterSlotUnused(m') && StatusesStored(m') && WindowsOfCreated(m', counter)
  {
    var m' := RecordVote(m, id, voter, support);
    forall id': nat
      ensures ProposalPointer(id', "againstVotes") !in m'
      ensures Read(m', ProposalPointer(id', "status")) == Read(m, ProposalPointer(id', "status"))
      ensures (ProposalPointer(id', "votingEnd") in m') == (ProposalPointer(id', "votingEnd") in m)
      ensures Read(m', ProposalPointer(id', "votingEnd")) == Read(m, ProposalPointer(id', "votingEnd"))
      ensures Read(m', ProposalPointer(id', "votingStart")) == Read(m, ProposalPointer(id', "votingStart"))
    {
      RecordVoteFrame(m, id, voter, support, ProposalPointer(id', "againstVotes"));
      RecordVoteFrame(m, id, voter, support, ProposalPointer(id', "status"));
      RecordVoteFrame(m, id, voter, support, ProposalPointer(id', "votingEnd"));
      RecordVoteFrame(m, id, voter, support, ProposalPointer(id', "votingStart"));
    }
  }

  lemma VoteKeepsBallots(m: Store, counter: nat, id: nat, voter: Address, support: U8)
    requires BallotSlotsValid(m, counter)
    requires 1 <= id <= counter
    requires Read(m, ProposalPointer(id, "status")) != PENDING
    ensures BallotSlotsValid(RecordVote(m, id, voter, support), counter)
  {
    var m' := RecordVote(m, id, voter, support);
    forall k | k in m' && k.tag == "vote"
      ensures BallotSlot(m', k, counter)
    {
      if k.id.Some? {
        RecordVoteFrame(m, id, voter, support, ProposalPointer(k.id.value, "status"));
      }
      if k in m {
        assert BallotSlot(m, k, counter);
      }
    }
  }

  /** The tally slots of the voted proposal after a vote. */
  lemma RecordVoteTallies(m: Store, id: nat, voter: Address, support: U8)
    ensures var m' := RecordVote(m, id, voter, support);
      && Read(m', ProposalPointer(id, "forVotes")) == Read(m, ProposalPointer(id, "forVotes")) + (if support == 1 then STUB_POWER else 0)
      && Read(m', ProposalPointer(id, "abstainVotes")) == Read(m, ProposalPointer(id, "abstainVotes")) + (if support == 2 then STUB_POWER else 0)
      && Read(m', ProposalPointer(id, "against Votes"))
         == if support == 0 then Read(m, ProposalPointer(id, "againstVotes")) + STUB_POWER else Read(m, ProposalPointer(id, "against Votes"))
  {
  }

  /**
   * A recorded vote marks the ballot as cast with its support and the
   * voter's power, so `hasVoted` holds afterwards and a second `castVote`
   * by the same voter on the same proposal fails.
   */
  lemma VoteMarksBallot(m: Store, id: nat, voter: Address, support: U8)
    ensures var m' := RecordVote(m, id, voter, support);
      && ReadU8(m', UserVotePointer(id, voter, "voted")) == 1
      && ReadU8(m', UserVotePointer(id, voter, "support")) == support
      && Read(m', UserVotePointer(id, voter, "weight")) == VotingPower(voter)
  {
  }

  /** How many ballots of each support the voted proposal has after a vote. */
  lemma BallotCountAfterVote(m: Store, id: nat, voter: Address, support: U8, s: nat)
    requires UserVotePointer(id, voter, "voted") !in m
    ensures |Ballots(RecordVote(m, id, voter, support), id, s)| == |Ballots(m, id, s)| + (if s == support then 1 else 0)
  {
    BallotsAfterVote(m, id, voter, support, id, s);
    assert UserVotePointer(id, voter, "voted") !in Ballots(m, id, s);
  }

  /** The vote's own proposal: the ballot joins its support's tally. */
  lemma VoteKeepsOwnTally(m: Store, id: nat, voter: Address, support: U8)
    requires ProposalPointer(id, "againstVotes") !in m && TallyMatches(m, id)
    requires UserVotePointer(id, voter, "voted") !in m
    ensures TallyMatches(RecordVote(m, id, voter, support), id)
  {
    RecordVoteTallies(m, id, voter, support);
    BallotCountAfterVote(m, id, voter, support, 0);
    BallotCountAfterVote(m, id, voter, support, 1);
    BallotCountAfterVote(m, id, voter, support, 2);
  }

  /** Another proposal: its ballots and tallies are untouched. */
  lemma VoteKeepsOtherTally(m: Store, id: nat, voter: Address, support: U8, id': nat)
    requires id' != id && TallyMatches(m, id')
    requires UserVotePointer(id, voter, "voted") !in m
    ensures TallyMatches(RecordVote(m, id, voter, support), id')
  {
    BallotsAfterVote(m, id, voter, support, id', 0);
    BallotsAfterVote(m, id, voter, support, id', 1);
    BallotsAfterVote(m, id, voter, support, id', 2);
    RecordVoteFrame(m, id, voter, support, ProposalPointer(id', "forVotes"));
    RecordVoteFrame(m, id, voter, support, ProposalPointer(id', "against Votes"));
    RecordVoteFrame(m, id, voter, support, ProposalPointer(id', "abstainVotes"));
  }

  lemma VoteKeepsTallies(m: Store, id: nat, voter: Address, support: U8)
    requires GetterSlotUnused(m) && TalliesMatch(m)
    requires UserVotePointer(id, voter, "voted") !in m
    ensures TalliesMatch(RecordVote(m, id, voter, support))
  {
    forall id': nat
      ensures TallyMatches(RecordVote(m, id, voter, support), id')
    {
      assert TallyMatches(m, id');
      if id' == id {
        VoteKeepsOwnTally(m, id, voter, support);
      } else {
        VoteKeepsOtherTally(m, id, voter, support, id');
      }
    }
  }

  /** A successful `castVote` keeps the invariant. */
  lemma VotePreserves(m: Store, counter: nat, id: nat, voter: Address, support: U8)
    requires Read(m, ProposalPointer(id, "status")) != PENDING
    requires Read(m, ProposalPointer(id, "votingEnd")) > 0
    requires ReadU8(m, UserVotePointer(id, voter, "voted")) != 1
    ensures GovInv(m, counter) ==> GovInv(RecordVote(m, id, voter, support), counter)
  {
    if GovInv(m, counter) {
      var v := UserVotePointer(id, voter, "voted");
      assert ProposalPointer(id, "votingEnd") in m;
      assert v in m ==> BallotSlot(m, v, counter);
      VoteKeepsProposalSlots(m, counter, id, voter, support);
      VoteKeepsBallots(m, counter, id, voter, support);
      VoteKeepsTallies(m, id, voter, support);
    }
  }

  // finalizeProposal and cancelProposal

  /** Storing DEFEATED or CANCELLED as a status keeps the invariant. */
  lemma StatusWritePreserves(m: Store, counter: nat, id: nat, status: nat)
    requires status == DEFEATED || status == CANCELLED
    ensures GovInv(m, counter) ==> GovInv(m[ProposalPointer(id, "status") := status], counter)
  {
    if GovInv(m, counter) {
      var m' := m[ProposalPointer(id, "status") := status];
      assert SameBallotSlots(m, m');
      forall k | k in m' && k.tag == "vote"
        ensures BallotSlot(m', k, counter)
      {
        assert BallotSlot(m, k, counter);
      }
      forall id': nat
        ensures TallyMatches(m', id')
      {
        BallotsOfSameSlots(m, m', id', 0);
        BallotsOfSameSlots(m, m', id', 1);
        BallotsOfSameSlots(m, m', id', 2);
        assert TallyMatches(m, id');
      }
      forall id': nat | 1 <= id' <= counter
        ensures Read(m', ProposalPointer(id', "votingEnd")) == Read(m', ProposalPointer(id', "votingStart")) + VOTING_PERIOD
      {
        assert Read(m, ProposalPointer(id', "votingEnd")) == Read(m, ProposalPointer(id', "votingStart")) + VOTING_PERIOD;
      }
      forall id': nat
        ensures StoredStatus(Read(m', ProposalPointer(id', "status")))
      {
        assert StoredStatus(Read(m, ProposalPointer(id', "status")));
      }
    }
  }

  // ---------------------------------------------------------------------
  // The contract
  // ---------------------------------------------------------------------

  class GovernanceContract {
    var store: Store
    var proposalCounter: nat

    ghost predicate Valid()
      reads this
    {
      GovInv(store, proposalCounter)
    }

    constructor ()
      ensures Valid() && store == map[] && proposalCounter == 0
    {
      store := map[];
      proposalCounter := 0;
      EmptyStoreValid();
    }

    // Field getters: each reads one slot.

    function ProposalProposer(id: nat): Address
      reads this
    {
      Read(store, ProposalPointer(id, "proposer"))
    }

    function ProposalVotingStart(id: nat): nat
      reads this
    {
      Read(store, ProposalPointer(id, "votingStart"))
    }

    function ProposalVotingEnd(id: nat): nat
      reads this
    {
      Read(store, ProposalPointer(id, "votingEnd"))
    }

    function ProposalStatus(id: nat): U8
      reads this
    {
      ReadU8(store, ProposalPointer(id, "status"))
    }

    function ProposalForVotes(id: nat): nat
      reads this
    {
      Read(store, ProposalPointer(id, "forVotes"))
    }

    /** Reads "againstVotes", a slot no setter writes. */
    function ProposalAgainstVotes(id: nat): nat
      reads this
    {
      Read(store, ProposalPointer(id, "againstVotes"))
    }

    function ProposalAbstainVotes(id: nat): nat
      reads this
    {
      Read(store, ProposalPointer(id, "abstainVotes"))
    }

    function ProposalExecutionTime(id: nat): nat
      reads this
    {
      Read(store, ProposalPointer(id, "executionTime"))
    }

    /** `hasVoted`: the ballot's "voted" slot reads 1. */
    function HasVoted(id: nat, user: Address): bool
      reads this
    {
      ReadU8(store, UserVotePointer(id, user, "voted")) == 1
    }

    /**
     * `getProposalVotes`: (for, against, abstain). In a reachable state the
     * for and abstain tallies are the recorded weight of the matching
     * ballots, and the against tally is always 0.
     */
    function GetProposalVotes(id: nat): (votes: (nat, nat, nat))
      reads this
      ensures Valid() ==> votes.1 == 0
      ensures Valid() ==> votes.0 == STUB_POWER * |Ballots(store, id, 1)|
      ensures Valid() ==> votes.2 == STUB_POWER * |Ballots(store, id, 2)|
    {
      var r := (ProposalForVotes(id), ProposalAgainstVotes(id), ProposalAbstainVotes(id));
      TallyOf(store, proposalCounter, id);
      r
    }

    // Field setters: each writes one slot (`setUserVote` writes three).

    method SetProposalProposer(id: nat, proposer: Address)
      modifies this`store
      ensures store == old(store)[ProposalPointer(id, "proposer") := proposer]
    {
      store := store[ProposalPointer(id, "proposer") := proposer];
    }

    method SetProposalTarget(id: nat, target: Address)
      modifies this`store
      ensures store == old(store)[ProposalPointer(id, "target") := target]
    {
      store := store[ProposalPointer(id, "target") := target];
    }

    method SetProposalVotingStart(id: nat, block: nat)
      modifies this`store
      ensures store == old(store)[ProposalPointer(id, "votingStart") := block]
    {
      store := store[ProposalPointer(id, "votingStart") := block];
    }

    method SetProposalVotingEnd(id: nat, block: nat)
      modifies this`store
      ensures store == old(store)[ProposalPointer(id, "votingEnd") := block]
    {
      store := store[ProposalPointer(id, "votingEnd") := block];
    }

    method SetProposalStatus(id: nat, status: U8)
      modifies this`store
      ensures store == old(store)[ProposalPointer(id, "status") := status]
    {
      store := store[ProposalPointer(id, "status") := status];
    }

    method SetProposalForVotes(id: nat, votes: nat)
      modifies this`store
      ensures store == old(store)[ProposalPointer(id, "forVotes") := votes]
    {
      store := store[ProposalPointer(id, "forVotes") := votes];
    }

    /** Writes "against Votes", not the "againstVotes" slot the getter reads. */
    method SetProposalAgainstVotes(id: nat, votes: nat)
      modifies this`store
      ensures store == old(store)[ProposalPointer(id, "against Votes") := votes]
    {
      store := store[ProposalPointer(id, "against Votes") := votes];
    }

    method SetProposalAbstainVotes(id: nat, votes: nat)
      modifies this`store
      ensures store == old(store)[ProposalPointer(id, "abstainVotes") := votes]
    {
      store := store[ProposalPointer(id, "abstainVotes") := votes];
    }

    method SetProposalExecutionTime(id: nat, time: nat)
      modifies this`store
      ensures store == old(store)[ProposalPointer(id, "executionTime") := time]
    {
      store := store[ProposalPointer(id, "executionTime") := time];
    }

    /** `setUserVote`: voted := 1, then the support, then the weight. */
    method SetUserVote(id: nat, user: Address, support: U8, weight: nat)
      modifies this`store
      ensures store == old(store)[UserVotePointer(id, user, "voted") := 1]
                                 [UserVotePointer(id, user, "support") := support]
                                 [UserVotePointer(id, user, "weight") := weight]
    {
      store := store[UserVotePointer(id, user, "voted") := 1];
      store := store[UserVotePointer(id, user, "support") := support];
      store := store[UserVotePointer(id, user, "weight") := weight];
    }

    /** The eight setter calls of `createProposal`, in its order. */
    method WriteProposal(id: nat, proposer: Address, target: Address, votingStart: nat)
      modifies this`store
      ensures store == NewProposal(old(store), id, proposer, target, votingStart)
    {
      SetProposalProposer(id, proposer);
      SetProposalTarget(id, target);
      SetProposalVotingStart(id, votingStart);
      SetProposalVotingEnd(id, votingStart + VOTING_PERIOD);
      SetProposalStatus(id, PENDING);
      SetProposalForVotes(id, 0);
      SetProposalAgainstVotes(id, 0);
      SetProposalAbstainVotes(id, 0);
    }

    // Public operations. `sender` is the transaction's sender and `now`
    // the block number.

    /**
     * `createProposal`: always succeeds (the stubbed power meets the
     * threshold), takes the next id and opens the voting window
     * VOTING_DELAY blocks from now for VOTING_PERIOD blocks.
     */
    method CreateProposal(sender: Address, now: U64, target: Address) returns (r: Result<nat, GovError>)
      requires proposalCounter + 1 < U256_LIMIT
      modifies this
      ensures old(Valid()) ==> Valid()
      ensures r == Ok(old(proposalCounter) + 1) && proposalCounter == old(proposalCounter) + 1
      ensures store == NewProposal(old(store), r.value, sender, target, now + VOTING_DELAY)
    {
      var power := VotingPower(sender);
      if power < PROPOSAL_THRESHOLD {
        return Err(InsufficientPower);
      }
      ghost var m0, c0 := store, proposalCounter;
      CreatePreserves(store, proposalCounter, sender, target, now + VOTING_DELAY);
      proposalCounter := proposalCounter + 1;
      var id := proposalCounter;
      var votingStart := now + VOTING_DELAY;
      WriteProposal(id, sender, target, votingStart);
      assert GovInv(m0, c0) ==> GovInv(store, proposalCounter);
      r := Ok(id);
    }

    /**
     * `castVote`: rejects a PENDING proposal (so also every id never
     * created), then checks the window and the voter's earlier ballot,
     * records the ballot for any `support`, and adds the weight to the
     * tally of support 0, 1 or 2 only.
     */
    method CastVote(sender: Address, now: U64, id: nat, support: U8) returns (r: Result<(), GovError>)
      requires support < 3 ==> Read(store, TallyReadSlot(id, support)) + STUB_POWER < U256_LIMIT
      modifies this`store
      ensures old(Valid()) ==> Valid()
      ensures r == if old(ProposalStatus(id)) == PENDING || now < old(ProposalVotingStart(id)) then Err(VotingNotStarted)
                   else if now >= old(ProposalVotingEnd(id)) then Err(VotingEnded)
                   else if old(HasVoted(id, sender)) then Err(AlreadyVoted)
                   else Ok(())
      ensures store == if r.Ok? then RecordVote(old(store), id, sender, support) else old(store)
      ensures r.Ok? ==> HasVoted(id, sender)
    {
      var status := ProposalStatus(id);
      if status == PENDING {
        return Err(VotingNotStarted);
      }
      var votingStart := ProposalVotingStart(id);
      var votingEnd := ProposalVotingEnd(id);
      if now < votingStart {
        return Err(VotingNotStarted);
      }
      if now >= votingEnd {
        return Err(VotingEnded);
      }
      if status == PENDING {
        // The flip to ACTIVE cannot run: PENDING was rejected above.
        assert false;
      }
      if HasVoted(id, sender) {
        return Err(AlreadyVoted);
      }
      var power := VotingPower(sender);
      if power == 0 {
        return Err(NoVotingPower);
      }
      assert Read(store, ProposalPointer(id, "status")) != PENDING;
      VotePreserves(store, proposalCounter, id, sender, support);
      ghost var before := store;
      SetUserVote(id, sender, support, power);
      if support == 1 {
        var forVotes := ProposalForVotes(id);
        SetProposalForVotes(id, forVotes + power);
      } else if support == 0 {
        var againstVotes := ProposalAgainstVotes(id);
        SetProposalAgainstVotes(id, againstVotes + power);
      } else if support == 2 {
        var abstainVotes := ProposalAbstainVotes(id);
        SetProposalAbstainVotes(id, abstainVotes + power);
      }
      r := Ok(());
    }

    /**
     * `finalizeProposal`: after the window, a PENDING or ACTIVE proposal
     * becomes SUCCEEDED (with its execution time set) if it passes, and
     * DEFEATED otherwise. In a reachable state it always becomes DEFEATED.
     */
    method FinalizeProposal(now: U64, id: nat) returns (r: Result<(), GovError>)
      requires ProposalForVotes(id) + ProposalAgainstVotes(id) < U256_LIMIT
      modifies this`store
      ensures old(Valid()) ==> Valid()
      ensures r == if now < old(ProposalVotingEnd(id)) then Err(VotingNotEnded)
                   else if old(ProposalStatus(id)) != ACTIVE && old(ProposalStatus(id)) != PENDING then Err(AlreadyFinalized)
                   else Ok(())
      ensures store == if r.Err? then old(store)
                       else if Passes(old(ProposalForVotes(id)), old(ProposalAgainstVotes(id)))
                       then old(store)[ProposalPointer(id, "executionTime") := now + EXECUTION_DELAY]
                                      [ProposalPointer(id, "status") := SUCCEEDED]
                       else old(store)[ProposalPointer(id, "status") := DEFEATED]
      ensures old(Valid()) && r.Ok? ==> ProposalStatus(id) == DEFEATED
    {
      var votingEnd := ProposalVotingEnd(id);
      if now < votingEnd {
        return Err(VotingNotEnded);
      }
      var status := ProposalStatus(id);
      if status != ACTIVE && status != PENDING {
        return Err(AlreadyFinalized);
      }
      var forVotes := ProposalForVotes(id);
      var againstVotes := ProposalAgainstVotes(id);
      var totalVotes := forVotes + againstVotes;
      var quorumReached := totalVotes >= QUORUM_VOTES;
      NeverPassesIfValid(store, proposalCounter, id);
      StatusWritePreserves(store, proposalCounter, id, DEFEATED);
      var newStatus := DEFEATED;
      if quorumReached && forVotes > againstVotes {
        newStatus := SUCCEEDED;
        var executionTime := now + EXECUTION_DELAY;
        SetProposalExecutionTime(id, executionTime);
      }
      SetProposalStatus(id, newStatus);
      r := Ok(());
    }

    /**
     * `executeProposal`: a SUCCEEDED proposal whose timelock has expired
     * becomes EXECUTED. No reachable state has a SUCCEEDED proposal, so in
     * a reachable state it always fails.
     */
    method ExecuteProposal(now: U64, id: nat) returns (r: Result<(), GovError>)
      modifies this`store
      ensures old(Valid()) ==> Valid() && r == Err(NotSucceeded)
      ensures r == if old(ProposalStatus(id)) != SUCCEEDED then Err(NotSucceeded)
                   else if now < old(ProposalExecutionTime(id)) then Err(TimelockActive)
                   else Ok(())
      ensures store == if r.Ok? then old(store)[ProposalPointer(id, "status") := EXECUTED] else old(store)
    {
      var status := ProposalStatus(id);
      if status != SUCCEEDED {
        return Err(NotSucceeded);
      }
      var executionTime := ProposalExecutionTime(id);
      if now < executionTime {
        return Err(TimelockActive);
      }
      NoSucceededIfValid(store, proposalCounter, id);
      SetProposalStatus(id, EXECUTED);
      r := Ok(());
    }

    /**
     * `cancelProposal`: the proposer may cancel any proposal that is not
     * EXECUTED. A never-created id has proposer 0, so address 0 can
     * cancel it.
     */
    method CancelProposal(sender: Address, id: nat) returns (r: Result<(), GovError>)
      modifies this`store
      ensures old(Valid()) ==> Valid()
      ensures r == if sender != old(ProposalProposer(id)) then Err(NotProposer)
                   else if old(ProposalStatus(id)) == EXECUTED then Err(AlreadyExecuted)
                   else Ok(())
      ensures store == if r.Ok? then old(store)[ProposalPointer(id, "status") := CANCELLED] else old(store)
    {
      var proposer := ProposalProposer(id);
      if sender != proposer {
        return Err(NotProposer);
      }
      var status := ProposalStatus(id);
      if status == EXECUTED {
        return Err(AlreadyExecuted);
      }
      StatusWritePreserves(store, proposalCounter, id, CANCELLED);
      SetProposalStatus(id, CANCELLED);
      r := Ok(());
    }
  }

  /** The tallies `getProposalVotes` reads, in a reachable state. */
  lemma TallyOf(m: Store, counter: nat, id: nat)
    ensures GovInv(m, counter) ==>
      && Read(m, ProposalPointer(id, "againstVotes")) == 0
      && Read(m, ProposalPointer(id, "forVotes")) == STUB_POWER * |Ballots(m, id, 1)|
      && Read(m, ProposalPointer(id, "abstainVotes")) == STUB_POWER * |Ballots(m, id, 2)|
  {
    if GovInv(m, counter) {
      assert TallyMatches(m, id);
    }
  }

  /** In a reachable state, a proposal that `finalizeProposal` accepts does not pass. */
  lemma NeverPassesIfValid(m: Store, counter: nat, id: nat)
    ensures GovInv(m, counter) && (ReadU8(m, ProposalPointer(id, "status")) == PENDING || ReadU8(m, ProposalPointer(id, "status")) == ACTIVE)
            ==> !Passes(Read(m, ProposalPointer(id, "forVotes")), Read(m, ProposalPointer(id, "againstVotes")))
  {
    if GovInv(m, counter) && (ReadU8(m, ProposalPointer(id, "status")) == PENDING || ReadU8(m, ProposalPointer(id, "status")) == ACTIVE) {
      FinalizeNeverPasses(m, counter, id);
    }
  }

  /** In a reachable state, no proposal is SUCCEEDED, ACTIVE or EXECUTED. */
  lemma NoSucceededIfValid(m: Store, counter: nat, id: nat)
    ensures GovInv(m, counter) ==>
      var s := ReadU8(m, ProposalPointer(id, "status"));
      s != SUCCEEDED && s != ACTIVE && s != EXECUTED
  {
    if GovInv(m, counter) {
      StatusReadsStored(m, counter, id);
    }
  }
}

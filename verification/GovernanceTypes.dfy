/**
 * Entities of the governance state machine.
 *
 * Script classification, payload decoding, proposal ids and signature recovery
 * are functions the environment supplies; nothing here relies on how they work.
 * A proposal id stands for its eight bytes read as a big-endian number, so the
 * order of ids is the order of the byte arrays. The environment also fixes
 * under which deployment, if any, governance is to become active.
 */
module GovernanceTypes {
  import opened Machine
  import opened Consensus
  import Deployments

  const QUORUM_PCT: nat := 33
  const THRESHOLD_PCT: nat := 66
  const LOCK_GRACE_BLOCKS: nat := 6
  const MIN_VOTING_BLOCKS: nat := 2880
  const MAX_VOTING_BLOCKS: nat := 10080
  const MIN_ACTIVATION_DELAY: nat := 2016
  const MAX_ACTIVATION_DELAY: nat := 20160
  const MIN_PROPOSAL_DEPOSIT: nat := 100 * COIN

  type Script = seq<nat>
  type Txid = nat
  type ProposalId = nat
  type Address = nat
  datatype OutPoint = OutPoint(txid: Txid, vout: nat)

  datatype Utxo = Utxo(outpoint: OutPoint, value: u64, script: Script, height: u32, timestamp: u32)

  datatype Proposal = Proposal(param: ParamId, newValue: u64, activationHeight: u32, votingEnd: u32, deposit: u64)

  datatype VoteChoice = Yes | No | Abstain
  datatype SignedVote = SignedVote(proposal: ProposalId, choice: VoteChoice, outpoint: OutPoint, signature: seq<nat>)

  datatype ScriptKind = P2PKH | P2CS | OpReturn | OtherScript

  /** What an output script carries: the prefix decides the message, decoding may then fail. */
  datatype Payload =
    | NoPayload
    | ProposalPayload(proposal: Proposal)
    | MalformedProposal
    | VotePayload(vote: SignedVote)
    | MalformedVote
    | UnsignedVote

  datatype Env = Env(
    classify: Script -> ScriptKind,
    payload: Script -> Payload,
    proposalId: (Proposal, u32) -> ProposalId,
    voter: (SignedVote, Utxo) -> Option<string>,
    deployment: Option<Deployments.Deployment>,
    period: u32)

  datatype TxOutput = TxOutput(value: u64, script: Script)
  datatype TxKind = Standard | Coinbase | Coinstake | LegacyClaim | AtomicSwap | TorrentIncentive
  datatype Transaction = Transaction(txid: Txid, kind: TxKind, inputs: seq<OutPoint>, outputs: seq<TxOutput>, claim: Option<Address>)

  datatype ProposalRecord = ProposalRecord(
    proposal: Proposal,
    createdHeight: u32,
    yes: u64,
    no: u64,
    abstain: u64,
    decided: bool,
    passed: bool,
    applied: bool,
    activationFailed: bool,
    quorumSupply: u64,
    voted: set<OutPoint>)
  {
    function Turnout(): nat { yes + no + abstain }

    /** Everything but the identities of the counted votes. */
    function Metadata(): ProposalRecord { this.(voted := {}) }
  }

  datatype VoteLock = VoteLock(
    outpoint: OutPoint,
    unlockHeight: u32,
    voter: string,
    proposal: ProposalId,
    origin: OutPoint,
    votingValue: u64,
    originHeight: u32)

  type Proposals = map<ProposalId, ProposalRecord>
  type Locks = map<OutPoint, VoteLock>
  type UtxoMap = map<OutPoint, Utxo>

  /** The value of a `GovernanceState` object. */
  datatype Gov = Gov(proposals: Proposals, locks: Locks)

  /** What a transaction is processed against. */
  datatype Context = Context(height: u32, timestamp: u32, utxos: UtxoMap, params: Params, totalStaked: u64)

  datatype Error =
    | BadProposalEncoding | VotingEndInPast | ActivationBeforeEnd | BadProposalTerms | BadParameter | DuplicateProposal
    | BadVoteEncoding | OutpointSpent | StakeNotMature | NotAuthorized | UnknownProposal | WindowClosed
    | StakeTooNew | AlreadyCounted | TallyOverflow | UnlockOverflow | UnsignedVoteRefused | BadRelock

  /** The state an operation leaves behind, and the error it returned if it failed part-way. */
  datatype Outcome = Outcome(gov: Gov, error: Option<Error>)

  predicate StakeableKind(kind: ScriptKind) { kind == P2PKH || kind == P2CS }

  /** `is_stakeable_with`. */
  predicate IsStakeable(env: Env, p: Params, u: Utxo) {
    p.minStakeAmount <= u.value && StakeableKind(env.classify(u.script))
  }

  /** The age test `begin_block` applies to a stake under candidate parameters. */
  predicate EligibleAt(env: Env, p: Params, u: Utxo, timestamp: u32) {
    && IsStakeable(env, p, u)
    && u.timestamp <= timestamp
    && p.minStakeAge <= timestamp - u.timestamp <= p.maxStakeAge
  }
}

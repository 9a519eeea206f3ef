/** Values that travel on the shared log: payloads, their selective-poll types and filters. */
module Bus {

  datatype Option<+T> = None | Some(value: T)

  /** Identity of one client operation (client number, position in its program order). */
  datatype OperationId = OperationId(client: nat, sequence: nat)

  datatype CounterOperation = Increment | Decrement | Read {
    predicate IsWrite() { !Read? }
  }

  /** The body of an intention: a counter command, or text unrelated to the counter. */
  datatype Body = CounterBody(id: OperationId, operation: CounterOperation) | TextBody(text: string)

  datatype Constraint = Unconstrained | Required(version: int) | Minimum(version: int)

  datatype Payload =
    | Intention(body: Body, constraint: Constraint)
    | Vote(voteFor: int, ballot: Option<bool>, voteReason: string)
    | DeciderPolicy(policy: int)
    | VoterPolicy
    | Commit(committed: int, commitReason: string)
    | Abort(aborted: int, abortReason: string)
    | PolicyBatch(expected: Option<int>, newVersion: int, deciderPolicy: Option<int>)
    | OtherControl
    | InferenceInput | InferenceOutput | ActionOutput | AgentInput | AgentOutput | Mail
    | Unrecognized   // a payload whose kind is not set or not known
    | Missing        // an entry without a payload
  {
    predicate IsDecision() { Commit? || Abort? }

    /** Whether this is a Commit or Abort naming intention `id`. */
    predicate Decides(id: int) {
      (Commit? && committed == id) || (Abort? && aborted == id)
    }
  }

  /** Wire values of the decider policies. */
  const OFF_BY_DEFAULT := 0
  const ON_BY_DEFAULT := 1
  const FIRST_BOOLEAN_WINS := 2

  function PayloadType(p: Payload): Option<int> {
    match p
    case Intention(_, _) => Some(1)
    case Vote(_, _, _) => Some(2)
    case DeciderPolicy(_) => Some(3)
    case Commit(_, _) => Some(4)
    case Abort(_, _) => Some(5)
    case VoterPolicy => Some(6)
    case PolicyBatch(_, _, _) => Some(7)
    case OtherControl => Some(7)
    case InferenceInput => Some(8)
    case InferenceOutput => Some(9)
    case ActionOutput => Some(10)
    case AgentInput => Some(11)
    case AgentOutput => Some(12)
    case Mail => Some(13)
    case Unrecognized => None
    case Missing => None
  }

  type Filter = Option<seq<int>>

  predicate MatchesFilter(p: Payload, filter: Filter) {
    match filter
    case None => true
    case Some(types) => PayloadType(p).Some? && PayloadType(p).value in types
  }
}

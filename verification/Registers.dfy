/** The operation register: which request an operation id is bound to and what came of it.
    One at a time, an id is either answered from its row or tried and bound. */
module Registers {
  import opened Outcomes
  import opened OpTypes

  /** What the request hash covers; the hash is taken to be injective. */
  datatype Request<P> = Request(op: OpType, payload: P)

  datatype Registered<P, R> = Registered(request: Request<P>, result: R)

  datatype Verdict<R, E> = Applied(result: R) | Duplicate(result: R) | KeyReuse | Failed(error: E)

  /** An operation id already bound to another request is refused. */
  function Replay<P(==), R, E>(existing: Registered<P, R>, request: Request<P>): Verdict<R, E> {
    if existing.request != request then KeyReuse else Duplicate(existing.result)
  }

  /** One attempt at the register, with what the effect would come to. */
  function Ask<K, P(==), R, E>(
      register: map<K, Registered<P, R>>, key: K, request: Request<P>, outcome: Result<R, E>)
    : (map<K, Registered<P, R>>, Verdict<R, E>)
  {
    if key in register then (register, Replay(register[key], request))
    else
      match outcome
      case Err(error) => (register, Failed(error))
      case Ok(result) => (register[key := Registered(request, result)], Applied(result))
  }
}

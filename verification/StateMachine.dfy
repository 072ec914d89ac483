/** The order lifecycle (internal/orders/state_machine.go). */
module StateMachine {
  import opened Wrappers

  /** A Go `OrderStatus` is a string: one of the five OMS values, or any other text. */
  datatype OrderStatus = Pending | Processing | Shipped | Delivered | Cancelled | Other(text: string)

  datatype TransitionError = UnknownStatus(status: OrderStatus) | InvalidTransition

  const VALID_STATUSES: set<OrderStatus> := {Pending, Processing, Shipped, Delivered, Cancelled}

  const ALLOWED_TRANSITIONS: map<OrderStatus, set<OrderStatus>> :=
    map[Pending := {Processing, Cancelled}, Processing := {Shipped}, Shipped := {Delivered}]

  predicate IsValidStatus(status: OrderStatus) {
    status in VALID_STATUSES
  }

  predicate CanTransition(from: OrderStatus, to: OrderStatus) {
    && IsValidStatus(from)
    && IsValidStatus(to)
    && from in ALLOWED_TRANSITIONS
    && to in ALLOWED_TRANSITIONS[from]
  }

  function ValidateTransition(from: OrderStatus, to: OrderStatus): (r: Option<TransitionError>)
    ensures r.None? <==> CanTransition(from, to)
    ensures r == Some(InvalidTransition) <==> IsValidStatus(from) && IsValidStatus(to) && !CanTransition(from, to)
    ensures from.Other? ==> r == Some(UnknownStatus(from))
    ensures !from.Other? && to.Other? ==> r == Some(UnknownStatus(to))
  {
    if !IsValidStatus(from) then Some(UnknownStatus(from))
    else if !IsValidStatus(to) then Some(UnknownStatus(to))
    else if !CanTransition(from, to) then Some(InvalidTransition)
    else None
  }

  /** The predecessor the privileged endpoint compares against (internal/orders/service.go:390-403). */
  function ExpectedStatusForTarget(target: OrderStatus): Result<OrderStatus, TransitionError> {
    match target
    case Processing => Ok(Pending)
    case Shipped => Ok(Processing)
    case Delivered => Ok(Shipped)
    case Cancelled => Ok(Pending)
    case _ =>
      match ValidateTransition(Pending, target)
      case Some(error) => Err(error)
      case None => Ok(Other(""))
  }

  /** The inferred predecessor is the only status from which the target can be entered; where
      there is no inferred predecessor there is no way in at all. */
  lemma InferredPredecessorIsUnique(from: OrderStatus, target: OrderStatus)
    ensures CanTransition(from, target) <==> ExpectedStatusForTarget(target) == Ok(from)
    ensures ExpectedStatusForTarget(target).Err? <==> target == Pending || !IsValidStatus(target)
    ensures ExpectedStatusForTarget(target) == Err(InvalidTransition) <==> target == Pending
    ensures target.Other? ==> ExpectedStatusForTarget(target) == Err(UnknownStatus(target))
  {
    assert !CanTransition(Pending, Pending);
  }

  /** Distance from PENDING; every transition increases it, so the graph is acyclic. */
  function Depth(status: OrderStatus): nat {
    match status
    case Pending => 0
    case Processing => 1
    case Cancelled => 1
    case Shipped => 2
    case Delivered => 3
    case Other(_) => 0
  }

  lemma TransitionsDeepen(from: OrderStatus, to: OrderStatus)
    requires CanTransition(from, to)
    ensures Depth(to) == Depth(from) + 1
    ensures from != Delivered && from != Cancelled
  {
  }
}

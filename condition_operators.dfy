/**
 * The six relational operators of the condition, the sign comparison the source
 * goes through (`decimal.CompareTo`), and the meaning of each operator.
 */
module ConditionOperators {
  import opened Wrappers

  /** ConditionOperator; `Unsupported` stands for every other value the enum can hold. */
  datatype ConditionOperator =
    | Equal
    | GreaterThan
    | GreaterThanOrEqual
    | LessThan
    | LessThanOrEqual
    | NotEqual
    | Unsupported

  /** The message of the InvalidOperationException thrown for any other operator. */
  const OperatorNotSupported := "Operator is not supported."

  /** `a.CompareTo(b)` on decimals: negative, zero or positive as `a` is below, at or above `b`. */
  function CompareTo(a: real, b: real): (r: int)
    ensures r < 0 <==> a < b
    ensures r == 0 <==> a == b
    ensures r > 0 <==> a > b
  {
    if a < b then -1 else if a == b then 0 else 1
  }

  /**
   * Reference semantics of the condition: whether `metric op threshold` holds, or the
   * unsupported-operator error.
   */
  function Evaluate(op: ConditionOperator, metric: real, threshold: real): Result<bool, string>
  {
    match op
    case Equal => Success(metric == threshold)
    case GreaterThan => Success(metric > threshold)
    case GreaterThanOrEqual => Success(metric >= threshold)
    case LessThan => Success(metric < threshold)
    case LessThanOrEqual => Success(metric <= threshold)
    case NotEqual => Success(metric != threshold)
    case Unsupported => Failure(OperatorNotSupported)
  }

  /** The six listed operators always give a boolean; any other gives the error, never a default. */
  lemma EvaluateFailsOnlyOnUnsupported(op: ConditionOperator, metric: real, threshold: real)
    ensures Evaluate(op, metric, threshold).Success? <==> op != Unsupported
    ensures op == Unsupported ==> Evaluate(op, metric, threshold) == Failure("Operator is not supported.")
  {
  }

  /** NotEqual is always the negation of Equal; GreaterThan of LessThanOrEqual; GreaterThanOrEqual of LessThan. */
  lemma ComplementaryOperators(metric: real, threshold: real)
    ensures Evaluate(NotEqual, metric, threshold).value == !Evaluate(Equal, metric, threshold).value
    ensures Evaluate(GreaterThan, metric, threshold).value == !Evaluate(LessThanOrEqual, metric, threshold).value
    ensures Evaluate(GreaterThanOrEqual, metric, threshold).value == !Evaluate(LessThan, metric, threshold).value
  {
  }

  /** At the threshold exactly Equal, GreaterThanOrEqual and LessThanOrEqual hold. */
  lemma AtThreshold(op: ConditionOperator, metric: real, threshold: real)
    requires metric == threshold && op != Unsupported
    ensures Evaluate(op, metric, threshold).value <==>
              op == Equal || op == GreaterThanOrEqual || op == LessThanOrEqual
  {
  }

  /** Exactly one of LessThan, Equal, GreaterThan holds for any metric and threshold. */
  lemma Trichotomy(metric: real, threshold: real)
    ensures (if Evaluate(LessThan, metric, threshold).value then 1 else 0)
          + (if Evaluate(Equal, metric, threshold).value then 1 else 0)
          + (if Evaluate(GreaterThan, metric, threshold).value then 1 else 0) == 1
  {
  }
}

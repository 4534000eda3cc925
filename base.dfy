/**
 * Shared vocabulary of the services: the failures they raise (an HTTP status
 * with the reason behind its message), a failure-compatible Result, Java's
 * 32-bit int, and the repository lookups.
 */
module Base {

  /** The reason a service gives in the message of its exception. */
  datatype Reason =
    | OrderNotFound
    | CustomerNotFound
    | ProductNotFound
    | CategoryNotFound
    | EmptyOrder
    | NegativeStock
    | StatusLocked(status: string)   // editStatusOrder on DELIVERED or CANCELLED, naming the status
    | UnknownStatusName
    | CannotCancel(status: string)   // deleteOrder on DELIVERED or CANCELLED, naming the status
    | DuplicateSku
    | DuplicateEmail
    | DuplicateDocument
    | DuplicateCategoryName

  /**
   * What a failed call throws. NotFound, BadRequest and Conflict are the
   * ResponseStatusExceptions of the services; NonUniqueResult is the
   * repository's answer to a single-row query that matches several rows;
   * InvalidEntity is the entity constraint check refusing a save.
   */
  datatype Failure =
    | NotFound(reason: Reason)
    | BadRequest(reason: Reason)
    | Conflict(reason: Reason)
    | NonUniqueResult
    | InvalidEntity

  datatype Result<+T> = Ok(value: T) | Err(error: Failure) {
    predicate IsFailure() { Err? }
    function PropagateFailure<U>(): Result<U> requires Err? { Err(error) }
    function Extract(): T requires Ok? { value }
  }

  datatype Option<+T> = None | Some(value: T)

  /** A stored entity together with the primary key the database gave it. */
  datatype Row<+V> = Row(id: nat, entity: V)

  const MinInt32: int := -0x8000_0000
  const MaxInt32: int := 0x7fff_ffff
  const Two32: int := 0x1_0000_0000

  /** Java's Integer / int. */
  type Int32 = x: int | -0x8000_0000 <= x <= 0x7fff_ffff

  /** Java int arithmetic: the exact result reduced to 32 bits, two's complement. */
  function Wrap32(x: int): (r: Int32)
    ensures MinInt32 <= x <= MaxInt32 ==> r == x
    ensures MaxInt32 < x <= MaxInt32 + Two32 ==> r == x - Two32
    ensures MinInt32 - Two32 <= x < MinInt32 ==> r == x + Two32
  {
    (x + 0x8000_0000) % Two32 - 0x8000_0000
  }

  /**
   * The answer of a derived single-row repository query, given the keys of
   * the rows that match it: none gives NotFound(missing), one gives that
   * row, two or more give NonUniqueResult.
   */
  function SingleRow<V>(m: map<nat, V>, ids: set<nat>, missing: Reason): (r: Result<Row<V>>)
    requires ids <= m.Keys
    ensures r.Ok? <==> |ids| == 1
    ensures r.Ok? ==> ids == {r.value.id} && r.value.id in m && r.value.entity == m[r.value.id]
    ensures r == Err(NotFound(missing)) <==> ids == {}
    ensures r == Err(NonUniqueResult) <==> |ids| >= 2
    ensures r.Err? ==> r.error == NotFound(missing) || r.error == NonUniqueResult
  {
    if ids == {} then
      Err(NotFound(missing))
    else if |ids| == 1 then
      assert exists a :: ids == {a} by {
        var a :| a in ids;
        assert |ids - {a}| == 0;
        assert ids == {a};
      }
      var id :| ids == {id};
      Ok(Row(id, m[id]))
    else
      Err(NonUniqueResult)
  }

  /** A set whose every element is `a`, and which holds `a`, is `{a}`. */
  lemma OnlyElement(s: set<nat>, a: nat)
    requires a in s
    requires forall b :: b in s ==> b == a
    ensures s == {a} && |s| == 1
  {
  }

  /** A lookup by primary key (`findById(...).orElseThrow(...)`). */
  function FindById<V>(m: map<nat, V>, id: nat, missing: Reason): (r: Result<V>)
    ensures r.Ok? <==> id in m
    ensures r.Ok? ==> r.value == m[id]
    ensures r.Err? ==> r.error == NotFound(missing)
  {
    if id in m then Ok(m[id]) else Err(NotFound(missing))
  }
}

/**
 * The order lifecycle: the five statuses the order service uses, their
 * names, the case-insensitive parse of a requested name, and the two
 * decisions the service takes on a status (may it be edited, may it be
 * cancelled and with stock given back).
 */
module OrderStatuses {
  import opened Base

  datatype OrderStatus = Created | Pending | Confirmed | Delivered | Cancelled

  /** The enum constant's name, the form in which the status is stored. */
  function Name(s: OrderStatus): string
  {
    match s
    case Created => "CREATED"
    case Pending => "PENDING"
    case Confirmed => "CONFIRMED"
    case Delivered => "DELIVERED"
    case Cancelled => "CANCELLED"
  }

  /** No edit and no cancellation is accepted from these. */
  predicate IsTerminal(s: OrderStatus)
  {
    s == Delivered || s == Cancelled
  }

  predicate IsLowerAscii(c: char)
  {
    'a' <= c <= 'z'
  }

  function UpperAscii(c: char): (u: char)
    ensures !IsLowerAscii(u)
    ensures IsLowerAscii(c) ==> u as int == c as int - 32
    ensures !IsLowerAscii(c) ==> u == c
  {
    if IsLowerAscii(c) then (c as int - 32) as char else c
  }

  /** `String.toUpperCase`, restricted to ASCII letters. */
  function ToUpper(s: string): (u: string)
    ensures |u| == |s|
    ensures forall i :: 0 <= i < |s| ==> u[i] == UpperAscii(s[i])
  {
    seq(|s|, i requires 0 <= i < |s| => UpperAscii(s[i]))
  }

  lemma NamesAreUpperCase(st: OrderStatus)
    ensures ToUpper(Name(st)) == Name(st)
  {
    var n := Name(st);
    assert forall i :: 0 <= i < |n| ==> !IsLowerAscii(n[i]);
  }

  lemma NamesAreDistinct(a: OrderStatus, b: OrderStatus)
    requires Name(a) == Name(b)
    ensures a == b
  {
    assert Name(a)[0] == Name(b)[0] && Name(a)[1] == Name(b)[1];
  }

  /**
   * `OrderStatus.valueOf(s.toUpperCase())`: the status whose name is the
   * upper-cased request, or None where valueOf throws.
   */
  function ParseStatus(s: string): (r: Option<OrderStatus>)
    ensures r.Some? ==> Name(r.value) == ToUpper(s)
    ensures r.None? ==> forall st :: Name(st) != ToUpper(s)
  {
    var u := ToUpper(s);
    if u == "CREATED" then Some(Created)
    else if u == "PENDING" then Some(Pending)
    else if u == "CONFIRMED" then Some(Confirmed)
    else if u == "DELIVERED" then Some(Delivered)
    else if u == "CANCELLED" then Some(Cancelled)
    else None
  }

  /** Every status parses back from its own name. */
  lemma ParseName(st: OrderStatus)
    ensures ParseStatus(Name(st)) == Some(st)
  {
    NamesAreUpperCase(st);
    var r := ParseStatus(Name(st));
    if r.Some? {
      NamesAreDistinct(r.value, st);
    }
  }

  /** The parse ignores the case of ASCII letters: any spelling of a name that upper-cases to it is accepted. */
  lemma ParseIgnoresCase(st: OrderStatus, s: string)
    requires |s| == |Name(st)|
    requires forall i :: 0 <= i < |s| ==> UpperAscii(s[i]) == Name(st)[i]
    ensures ParseStatus(s) == Some(st)
  {
    assert ToUpper(s) == Name(st);
    var r := ParseStatus(s);
    if r.Some? {
      NamesAreDistinct(r.value, st);
    }
  }

  /** A name of the wrong length, such as "bogus", is never a status. */
  lemma BogusIsUnknown()
    ensures ParseStatus("bogus") == None
  {
    assert |ToUpper("bogus")| == 5;
  }

  /**
   * The status edit of `editStatusOrder`: a terminal order may not be edited
   * (checked before the name is parsed); otherwise any parsed status is
   * accepted, whatever the current one.
   */
  function EditStatus(current: OrderStatus, requested: string): (r: Result<OrderStatus>)
    ensures IsTerminal(current) ==> r == Err(BadRequest(StatusLocked(Name(current))))
    ensures r.Ok? <==> !IsTerminal(current) && exists st :: Name(st) == ToUpper(requested)
    ensures r.Ok? ==> Name(r.value) == ToUpper(requested)
    ensures !IsTerminal(current) && r.Err? ==> r.error == BadRequest(UnknownStatusName)
  {
    if IsTerminal(current) then
      Err(BadRequest(StatusLocked(Name(current))))
    else
      match ParseStatus(requested)
      case Some(st) => Ok(st)
      case None => Err(BadRequest(UnknownStatusName))
  }

  /**
   * The cancellation decision of `deleteOrder`: Ok(true) when the items'
   * quantities go back to stock, Ok(false) when the order is cancelled
   * without touching stock, an error from a terminal status.
   */
  function CancelDecision(current: OrderStatus): (r: Result<bool>)
    ensures r.Err? <==> IsTerminal(current)
    ensures r.Err? ==> r.error == BadRequest(CannotCancel(Name(current)))
    ensures r == Ok(true) <==> current == Confirmed || current == Created
    ensures r == Ok(false) <==> current == Pending
  {
    if current == Confirmed || current == Created then Ok(true)
    else if current == Delivered || current == Cancelled then Err(BadRequest(CannotCancel(Name(current))))
    else Ok(false)
  }

  /** Once DELIVERED or CANCELLED, neither an edit nor a cancellation succeeds. */
  lemma TerminalIsSticky(current: OrderStatus, requested: string)
    requires IsTerminal(current)
    ensures EditStatus(current, requested).Err? && CancelDecision(current).Err?
  {
  }
}

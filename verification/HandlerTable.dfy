/** The event-handler table of the Wi-Fi HAL (wifi_hal/common.cpp) and the requests that borrow a slot
    in it (cpp_bindings.cpp). */
module HandlerTable {

  const NL80211_CMD_VENDOR := 103

  // Error codes of the Wi-Fi HAL; its header is not part of this model, only their signs matter here.
  const WIFI_ERROR_UNKNOWN := -1
  const WIFI_ERROR_NOT_SUPPORTED := -3
  const WIFI_ERROR_NOT_AVAILABLE := -4
  const WIFI_ERROR_INVALID_ARGS := -5
  const WIFI_ERROR_TIMED_OUT := -7
  const WIFI_ERROR_OUT_OF_MEMORY := -9
  const WIFI_ERROR_BUSY := -10

  /** kernelErrorToWifiHalError, with the errno values of Linux. */
  function HalError(kerr: int): (e: int)
    ensures kerr < 0 <==> e < 0
    ensures kerr >= 0 ==> e == 0
  {
    if kerr >= 0 then 0
    else if kerr == -95 then WIFI_ERROR_NOT_SUPPORTED
    else if kerr == -11 then WIFI_ERROR_NOT_AVAILABLE
    else if kerr == -22 then WIFI_ERROR_INVALID_ARGS
    else if kerr == -110 then WIFI_ERROR_TIMED_OUT
    else if kerr == -12 then WIFI_ERROR_OUT_OF_MEMORY
    else if kerr == -16 then WIFI_ERROR_BUSY
    else WIFI_ERROR_UNKNOWN
  }

  /** The six known kernel errors are told apart, and everything else is the unknown error. */
  lemma HalErrorDistinct(a: int, b: int)
    requires a in {-95, -11, -22, -110, -12, -16} && b < 0
    ensures HalError(a) == HalError(b) <==> a == b
    ensures b !in {-95, -11, -22, -110, -12, -16} ==> HalError(b) == WIFI_ERROR_UNKNOWN
  {
  }

  datatype Handler = Handler(cmd: int, vendor: int, subcmd: int, func: int, arg: int)

  /** What a handler is looked up by: vendor handlers by id and subcommand, others by command. */
  datatype Key = Plain(cmd: int) | Vendor(id: int, subcmd: int) {
    predicate Matches(h: Handler) {
      match this
      case Plain(c) => h.cmd == c
      case Vendor(i, s) => h.cmd == NL80211_CMD_VENDOR && h.vendor == i && h.subcmd == s
    }

    /** wifi_unregister_handler refuses the vendor command. */
    predicate Removable() { Plain? ==> cmd != NL80211_CMD_VENDOR }

    function Make(func: int, arg: int): (h: Handler)
      ensures Matches(h) && h.func == func && h.arg == arg
    {
      match this
      case Plain(c) => Handler(c, 0, 0, func, arg)
      case Vendor(i, s) => Handler(NL80211_CMD_VENDOR, i, s, func, arg)
    }
  }

  /** Keys that can be removed tell handlers apart: each matches just its own. */
  lemma KeysDistinct(k: Key, l: Key, func: int, arg: int)
    requires k.Removable() && l.Removable()
    ensures k.Matches(l.Make(func, arg)) <==> k == l
  {
  }

  // ---- The table as a bounded sequence

  function Add(s: seq<Handler>, h: Handler, cap: nat): seq<Handler> { if |s| < cap then s + [h] else s }

  function RemoveFirst(s: seq<Handler>, k: Key): (r: seq<Handler>)
    ensures |r| <= |s|
  {
    if s == [] then [] else if k.Matches(s[0]) then s[1..] else [s[0]] + RemoveFirst(s[1..], k)
  }

  function Remove(s: seq<Handler>, k: Key): (r: seq<Handler>)
    ensures |r| <= |s|
  {
    if k.Removable() then RemoveFirst(s, k) else s
  }

  lemma {:induction false} RemoveAt(s: seq<Handler>, k: Key, i: nat)
    requires i < |s| && k.Matches(s[i]) && forall j :: 0 <= j < i ==> !k.Matches(s[j])
    ensures RemoveFirst(s, k) == s[..i] + s[i + 1..]
  {
    if i > 0 {
      RemoveAt(s[1..], k, i - 1);
      assert s[1..][..i - 1] == s[1..i] && s[1..][i..] == s[i + 1..];
      assert [s[0]] + s[1..i] == s[..i];
    }
  }

  lemma {:induction false} RemoveNone(s: seq<Handler>, k: Key)
    requires forall j :: 0 <= j < |s| ==> !k.Matches(s[j])
    ensures RemoveFirst(s, k) == s
  {
    if s != [] {
      RemoveNone(s[1..], k);
    }
  }

  class HalInfo {
    const eventCb: array<Handler>
    var num: nat

    ghost predicate Valid()
      reads this
    {
      num <= eventCb.Length
    }

    function Contents(): seq<Handler>
      requires Valid()
      reads this, eventCb
    {
      eventCb[..num]
    }

    constructor (alloc: nat)
      ensures Valid() && eventCb.Length == alloc && Contents() == []
    {
      eventCb := new Handler[alloc](_ => Handler(0, 0, 0, 0, 0));
      num := 0;
    }

    /** wifi_register_handler and wifi_register_vendor_handler. */
    method Register(k: Key, func: int, arg: int) returns (ok: bool)
      requires Valid()
      modifies this, eventCb
      ensures Valid() && ok == (old(num) < eventCb.Length)
      ensures Contents() == Add(old(Contents()), k.Make(func, arg), eventCb.Length)
    {
      ok := num < eventCb.Length;
      if ok {
        eventCb[num] := k.Make(func, arg);
        num := num + 1;
      }
    }

    /** memmove of the entries behind i down by one. */
    method MoveDown(i: nat)
      requires Valid() && i < num
      modifies eventCb
      ensures Valid() && eventCb[..num - 1] == old(eventCb[..i]) + old(eventCb[i + 1..num])
    {
      ghost var was := eventCb[..];
      var j := i;
      while j + 1 < num
        invariant i <= j < num
        invariant forall k :: 0 <= k < i ==> eventCb[k] == was[k]
        invariant forall k :: i <= k < j ==> eventCb[k] == was[k + 1]
        invariant forall k :: j <= k < eventCb.Length ==> eventCb[k] == was[k]
      {
        eventCb[j] := eventCb[j + 1];
        j := j + 1;
      }
      assert eventCb[..num - 1] == was[..i] + was[i + 1..num];
    }

    /** wifi_unregister_handler and wifi_unregister_vendor_handler. */
    method Unregister(k: Key)
      requires Valid()
      modifies this, eventCb
      ensures Valid() && Contents() == Remove(old(Contents()), k)
    {
      if !k.Removable() {
        return;
      }
      ghost var s := Contents();
      var i := 0;
      while i < num
        invariant 0 <= i <= num == |s| && Contents() == s
        invariant forall j :: 0 <= j < i ==> !k.Matches(s[j])
      {
        if k.Matches(eventCb[i]) {
          RemoveAt(s, k, i);
          MoveDown(i);
          num := num - 1;
          return;
        }
        i := i + 1;
      }
      RemoveNone(s, k);
    }

    /** requestEvent and requestVendorEvent; `created`, `sent` and `waited` are what building, sending and
        waiting return, and no other thread touches the table meanwhile. */
    method Request(k: Key, func: int, arg: int, created: int, sent: int, waited: int) returns (res: int)
      requires Valid()
      modifies this, eventCb
      ensures Valid()
      ensures Contents() == Borrow(old(Contents()), k, k.Make(func, arg), eventCb.Length, [])
      ensures res == if old(num) >= eventCb.Length then WIFI_ERROR_OUT_OF_MEMORY
                     else if created < 0 then created else if sent < 0 then HalError(sent) else waited
      ensures res < 0 <==> old(num) >= eventCb.Length || created < 0 || sent < 0 || waited < 0
    {
      var ok := Register(k, func, arg);
      if !ok {
        return WIFI_ERROR_OUT_OF_MEMORY;
      }
      res := created;
      if res >= 0 {
        res := sent;
        if res < 0 {
          res := HalError(res);
        } else {
          res := waited;
        }
      }
      Unregister(k);
    }
  }

  // ---- Borrowing a slot

  /** What other threads do to the table while a request waits. */
  datatype Op = AddOp(h: Handler) | RemoveOp(key: Key)

  function Apply(s: seq<Handler>, o: Op, cap: nat): seq<Handler> {
    match o
    case AddOp(h) => Add(s, h, cap)
    case RemoveOp(k) => Remove(s, k)
  }

  function ApplyAll(s: seq<Handler>, ops: seq<Op>, cap: nat): seq<Handler>
    decreases |ops|
  {
    if ops == [] then s else ApplyAll(Apply(s, ops[0], cap), ops[1..], cap)
  }

  /** Register, others' operations, unregister; a full table makes the request fail at once. */
  function Borrow(s: seq<Handler>, k: Key, h: Handler, cap: nat, ops: seq<Op>): seq<Handler> {
    if |s| >= cap then s else Remove(ApplyAll(s + [h], ops, cap), k)
  }

  /** The operations leave key k alone and never meet a table with fewer than two free slots. */
  ghost predicate Apart(s: seq<Handler>, k: Key, h: Handler, cap: nat, ops: seq<Op>)
    decreases |ops|
  {
    ops != [] ==>
    && (match ops[0] case AddOp(x) => !k.Matches(x) && |s| + 1 < cap case RemoveOp(l) => !l.Matches(h))
    && Apart(Apply(s, ops[0], cap), k, h, cap, ops[1..])
  }

  predicate Has(s: seq<Handler>, k: Key) { exists x :: x in s && k.Matches(x) }

  lemma HasTail(s: seq<Handler>, k: Key)
    requires s != [] && !k.Matches(s[0])
    ensures Has(s, k) <==> Has(s[1..], k)
  {
    assert forall x :: x in s ==> x == s[0] || x in s[1..];
  }

  /** The first match is in the first part if that has one. */
  lemma {:induction false} RemoveConcat(a: seq<Handler>, b: seq<Handler>, k: Key)
    ensures RemoveFirst(a + b, k) == if Has(a, k) then RemoveFirst(a, k) + b else a + RemoveFirst(b, k)
  {
    if a == [] {
      assert a + b == b;
    } else {
      assert (a + b)[0] == a[0] && (a + b)[1..] == a[1..] + b;
      if !k.Matches(a[0]) {
        RemoveConcat(a[1..], b, k);
        HasTail(a, k);
        if Has(a, k) {
          assert [a[0]] + (RemoveFirst(a[1..], k) + b) == RemoveFirst(a, k) + b;
        } else {
          assert [a[0]] + (a[1..] + RemoveFirst(b, k)) == a + RemoveFirst(b, k);
        }
      }
    }
  }

  lemma RemovePast(h: Handler, b: seq<Handler>, k: Key)
    requires !k.Matches(h)
    ensures RemoveFirst([h] + b, k) == [h] + RemoveFirst(b, k)
  {
    assert ([h] + b)[1..] == b;
  }

  /** A handler that does not match stays where it is among those that the removal leaves. */
  lemma RemoveAround(a: seq<Handler>, h: Handler, b: seq<Handler>, l: Key) returns (c: seq<Handler>, d: seq<Handler>)
    requires !l.Matches(h)
    ensures RemoveFirst(a + [h] + b, l) == c + [h] + d && RemoveFirst(a + b, l) == c + d
    ensures (forall x :: x in c ==> x in a) && (forall x :: x in d ==> x in b)
  {
    var hb := [h] + b;
    RemoveConcat(a, b, l);
    RemoveConcat(a, hb, l);
    RemovePast(h, b, l);
    assert a + [h] + b == a + hb;
    if Has(a, l) {
      RemoveSubset(a, l);
      c, d := RemoveFirst(a, l), b;
      assert c + [h] + d == c + hb;
    } else {
      RemoveSubset(b, l);
      c, d := a, RemoveFirst(b, l);
      assert c + [h] + d == c + ([h] + d);
    }
  }

  lemma {:induction false} RemoveSubset(s: seq<Handler>, k: Key)
    ensures forall x :: x in RemoveFirst(s, k) ==> x in s
  {
    if s != [] {
      RemoveSubset(s[1..], k);
    }
  }

  /** A borrowed slot is invisible to the others and disappears without trace. */
  lemma {:induction false} BorrowAround(a: seq<Handler>, h: Handler, b: seq<Handler>, k: Key, cap: nat, ops: seq<Op>)
    requires k.Removable() && k.Matches(h) && forall x :: x in a + b ==> !k.Matches(x)
    requires Apart(a + b, k, h, cap, ops)
    ensures Remove(ApplyAll(a + [h] + b, ops, cap), k) == ApplyAll(a + b, ops, cap)
    decreases |ops|
  {
    if ops == [] {
      RemoveAt(a + [h] + b, k, |a|);
      assert (a + [h] + b)[..|a|] + (a + [h] + b)[|a| + 1..] == a + b;
    } else {
      match ops[0] {
        case AddOp(x) =>
          assert a + [h] + b + [x] == a + [h] + (b + [x]) && a + b + [x] == a + (b + [x]);
          BorrowAround(a, h, b + [x], k, cap, ops[1..]);
        case RemoveOp(l) =>
          if l.Removable() {
            var c, d := RemoveAround(a, h, b, l);
            BorrowAround(c, h, d, k, cap, ops[1..]);
          } else {
            BorrowAround(a, h, b, k, cap, ops[1..]);
          }
      }
    }
  }

  /** A request for a key without another handler leaves the table as if it had never been made, whatever
      the others did meanwhile. */
  lemma RequestTransparent(s: seq<Handler>, k: Key, h: Handler, cap: nat, ops: seq<Op>)
    requires k.Removable() && k.Matches(h) && forall x :: x in s ==> !k.Matches(x)
    requires |s| < cap && Apart(s, k, h, cap, ops)
    ensures Borrow(s, k, h, cap, ops) == ApplyAll(s, ops, cap)
  {
    assert s + [h] + [] == s + [h] && s + [] == s;
    BorrowAround(s, h, [], k, cap, ops);
  }

  /** Every entry from the first match on is h. */
  predicate Trailing(s: seq<Handler>, k: Key, h: Handler) {
    forall i, j :: 0 <= i <= j < |s| && k.Matches(s[i]) ==> s[j] == h
  }

  /** Undisturbed, it leaves the table as found exactly when the table was full, or the key is removable
      and every entry from the first match on equals the new one. */
  lemma RequestRestoresExactly(s: seq<Handler>, k: Key, h: Handler, cap: nat)
    requires k.Matches(h)
    ensures Borrow(s, k, h, cap, []) == s <==> |s| >= cap || (k.Removable() && Trailing(s, k, h))
  {
    if |s| < cap && k.Removable() {
      TrailingEqual(s, k, h);
    }
  }

  lemma TrailingStep(s: seq<Handler>, k: Key, h: Handler)
    requires s != []
    ensures k.Matches(s[0]) ==> (Trailing(s, k, h) <==> forall j :: 0 <= j < |s| ==> s[j] == h)
    ensures !k.Matches(s[0]) ==> (Trailing(s, k, h) <==> Trailing(s[1..], k, h))
  {
    var t := s[1..];
    assert forall i :: 0 <= i < |t| ==> t[i] == s[i + 1];
    assert forall i :: 0 < i < |s| ==> s[i] == t[i - 1];
  }

  lemma {:induction false} TrailingEqual(s: seq<Handler>, k: Key, h: Handler)
    requires k.Matches(h)
    ensures RemoveFirst(s + [h], k) == s <==> Trailing(s, k, h)
  {
    if s == [] {
      assert [] + [h] == [h];
    } else {
      TrailingStep(s, k, h);
      assert (s + [h])[1..] == s[1..] + [h];
      if k.Matches(s[0]) {
        ShiftEqual(s, h);
      } else {
        TrailingEqual(s[1..], k, h);
        SameHead(s, RemoveFirst(s[1..] + [h], k));
      }
    }
  }

  lemma SameHead(s: seq<Handler>, t: seq<Handler>)
    requires s != []
    ensures [s[0]] + t == s <==> t == s[1..]
  {
    assert ([s[0]] + t)[1..] == t;
  }

  lemma {:induction false} ShiftEqual(s: seq<Handler>, h: Handler)
    requires s != []
    ensures s[1..] + [h] == s <==> forall j :: 0 <= j < |s| ==> s[j] == h
  {
    if s[1..] + [h] == s {
      var j := |s| - 1;
      assert (s[1..] + [h])[j] == h;
      while j > 0
        invariant 0 <= j < |s|
        invariant forall i :: j <= i < |s| ==> s[i] == h
      {
        assert (s[1..] + [h])[j - 1] == s[j];
        j := j - 1;
      }
    }
  }
}

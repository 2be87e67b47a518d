/** The cash-shift ledger: opening and closing the register and the shift a payment is
    attributed to. At most one shift is open at any time. */
module Cash {
  import opened Wrappers
  import opened Records

  predicate IsOpen(s: CashShift) {
    s.closedAt.None?
  }

  /** No two shifts are open at once. */
  predicate AtMostOneOpenShift(sh: seq<CashShift>) {
    forall i, j :: 0 <= i < j < |sh| ==> !(IsOpen(sh[i]) && IsOpen(sh[j]))
  }

  /** `shift ? shift.id : null` for `shift = getOpenShift(db)`: the id of the open shift,
      which, with at most one open, is the id of any open shift; null when all are closed. */
  function OpenShiftId(sh: seq<CashShift>): (r: Option<int>)
    ensures r.None? <==> forall i :: 0 <= i < |sh| ==> !IsOpen(sh[i])
    ensures AtMostOneOpenShift(sh) ==> forall i :: 0 <= i < |sh| && IsOpen(sh[i]) ==> r == Some(sh[i].id)
  {
    match GetOpenShift(sh)
    case None => None
    case Some(i) => Some(sh[i].id)
  }

  /** The shift table after the open-register button: a no-op while a shift is open,
      otherwise a new open shift is appended. */
  function ShiftsAfterOpen(sh: seq<CashShift>, initialAmount: int, now: int): (r: seq<CashShift>)
    ensures (exists i :: 0 <= i < |sh| && IsOpen(sh[i])) ==> r == sh
    ensures (forall i :: 0 <= i < |sh| ==> !IsOpen(sh[i])) ==>
              && |r| == |sh| + 1 && r[..|sh|] == sh
              && IsOpen(r[|sh|]) && r[|sh|].openedAt == now && r[|sh|].initialAmount == initialAmount
              && r[|sh|].id == NextId(ShiftIds(sh))
  {
    if GetOpenShift(sh).Some? then sh
    else sh + [CashShift(NextId(ShiftIds(sh)), now, None, initialAmount)]
  }

  /** The shift table after the close-register button: the shift `getOpenShift` finds gets
      its closing time; with none open nothing changes. */
  function ShiftsAfterClose(sh: seq<CashShift>, now: int): (r: seq<CashShift>)
    ensures |r| == |sh|
    ensures forall i :: 0 <= i < |sh| ==>
              r[i] == if IsOpen(sh[i]) && forall j :: 0 <= j < i ==> !IsOpen(sh[j])
                      then sh[i].(closedAt := Some(now)) else sh[i]
  {
    match GetOpenShift(sh)
    case None => sh
    case Some(i) => sh[i := sh[i].(closedAt := Some(now))]
  }

  /** Opening keeps at most one shift open and ids growing; afterwards a shift is open,
      and, unless one already was, it is a new one at the end holding the opening
      amount, every earlier shift untouched. */
  lemma OpenShiftKeepsOneOpen(sh: seq<CashShift>, initialAmount: int, now: int)
    requires AtMostOneOpenShift(sh) && StrictlyIncreasing(ShiftIds(sh))
    ensures var after := ShiftsAfterOpen(sh, initialAmount, now);
      && AtMostOneOpenShift(after) && StrictlyIncreasing(ShiftIds(after))
      && OpenShiftId(after).Some?
      && ((exists i :: 0 <= i < |sh| && IsOpen(sh[i])) ==> after == sh)
      && ((forall i :: 0 <= i < |sh| ==> !IsOpen(sh[i])) ==>
            && |after| == |sh| + 1 && after[..|sh|] == sh
            && after[|sh|] == CashShift(NextId(ShiftIds(sh)), now, None, initialAmount)
            && OpenShiftId(after) == Some(after[|sh|].id))
  {
    var after := ShiftsAfterOpen(sh, initialAmount, now);
    if GetOpenShift(sh).None? {
      NextIdFresh(ShiftIds(sh));
      assert ShiftIds(after) == ShiftIds(sh) + [after[|sh|].id];
      assert after[..|sh|] == sh;
      assert IsOpen(after[|sh|]);
    } else {
      assert IsOpen(sh[GetOpenShift(sh).value]);
    }
  }

  /** Closing leaves no shift open when at most one was, closes it at `now`, touches no
      other shift and keeps ids; a shift already closed never changes. */
  lemma CloseShiftClosesTheOpenOne(sh: seq<CashShift>, now: int)
    requires AtMostOneOpenShift(sh)
    ensures var after := ShiftsAfterClose(sh, now);
      && |after| == |sh| && ShiftIds(after) == ShiftIds(sh)
      && (forall i :: 0 <= i < |after| ==> !IsOpen(after[i]))
      && OpenShiftId(after).None?
      && (forall i :: 0 <= i < |sh| && !IsOpen(sh[i]) ==> after[i] == sh[i])
      && (forall i :: 0 <= i < |sh| && IsOpen(sh[i]) ==> after[i] == sh[i].(closedAt := Some(now)))
  {
    var after := ShiftsAfterClose(sh, now);
    assert ShiftIds(after) == ShiftIds(sh);
  }
}

/**
 * Hardware assets and their assignment history: two tables that must agree on who holds what, through
 * assignment, return, retirement and the bulk return of an offboarding.
 */
module Assets {
  import opened Common

  type EmployeeId = string
  type AssetId = nat  // position in the assets table

  datatype Status = InStock | Assigned | InRepair | Retired | Lost

  datatype Asset = Asset(tag: string, status: Status, assignedTo: Option<EmployeeId>)
  datatype Assignment = Assignment(asset: AssetId, employee: EmployeeId, assignedAt: int, returnedAt: Option<int>)

  datatype State = State(assets: seq<Asset>, assignments: seq<Assignment>)

  datatype Refusal = TagTaken | AssetNotFound | AssetRetired | AlreadyAssigned | NotAssigned | EmployeeNotFound

  datatype Op =
    | Create(tag: string)
    | Assign(asset: AssetId, employee: EmployeeId, now: int, employeeExists: bool)
    | Unassign(asset: AssetId, now: int)
    | Retire(asset: AssetId)
    | ReturnAll(employee: EmployeeId, now: int)  // the asset part of an approved offboarding

  predicate Open(a: Assignment) {
    a.returnedAt.None?
  }

  // ---- Row updates ----

  function CloseAsset(rows: seq<Assignment>, asset: AssetId, now: int): seq<Assignment> {
    seq(|rows|, i requires 0 <= i < |rows| =>
      if rows[i].asset == asset && Open(rows[i]) then rows[i].(returnedAt := Some(now)) else rows[i])
  }

  function CloseEmployee(rows: seq<Assignment>, employee: EmployeeId, now: int): seq<Assignment> {
    seq(|rows|, i requires 0 <= i < |rows| =>
      if rows[i].employee == employee && Open(rows[i]) then rows[i].(returnedAt := Some(now)) else rows[i])
  }

  predicate Holds(rows: seq<Assignment>, employee: EmployeeId, asset: AssetId) {
    exists r :: r in rows && r.employee == employee && r.asset == asset && Open(r)
  }

  function RestockHeld(assets: seq<Asset>, rows: seq<Assignment>, employee: EmployeeId): seq<Asset> {
    seq(|assets|, i requires 0 <= i < |assets| =>
      if Holds(rows, employee, i) then assets[i].(status := InStock) else assets[i])
  }

  predicate TagUsed(assets: seq<Asset>, tag: string) {
    exists a :: a in assets && a.tag == tag
  }

  // ---- Whole calls ----

  function Refused(s: State, op: Op): Option<Refusal> {
    match op
    case Create(tag) => if TagUsed(s.assets, tag) then Some(TagTaken) else None
    case Assign(asset, _, _, employeeExists) =>
      if asset >= |s.assets| then Some(AssetNotFound)
      else if s.assets[asset].status == Retired || s.assets[asset].status == Lost then Some(AssetRetired)
      else if s.assets[asset].assignedTo.Some? then Some(AlreadyAssigned)
      else if !employeeExists then Some(EmployeeNotFound)
      else None
    case Unassign(asset, _) =>
      if asset >= |s.assets| then Some(AssetNotFound)
      else if s.assets[asset].assignedTo.None? then Some(NotAssigned)
      else None
    case Retire(asset) =>
      if asset >= |s.assets| then Some(AssetNotFound)
      else if s.assets[asset].status == Retired then Some(AssetRetired)
      else if s.assets[asset].status == Assigned then Some(AlreadyAssigned)
      else None
    case ReturnAll(_, _) => None
  }

  function Next(s: State, op: Op): State {
    if Refused(s, op).Some? then s else
    match op
    case Create(tag) => s.(assets := s.assets + [Asset(tag, InStock, None)])
    case Assign(asset, employee, now, _) =>
      State(s.assets[asset := s.assets[asset].(status := Assigned, assignedTo := Some(employee))],
            s.assignments + [Assignment(asset, employee, now, None)])
    case Unassign(asset, now) =>
      State(s.assets[asset := s.assets[asset].(status := InStock, assignedTo := None)],
            CloseAsset(s.assignments, asset, now))
    case Retire(asset) => s.(assets := s.assets[asset := s.assets[asset].(status := Retired, assignedTo := None)])
    case ReturnAll(employee, now) =>
      State(RestockHeld(s.assets, s.assignments, employee), CloseEmployee(s.assignments, employee, now))
  }

  ghost predicate IsRun(ss: seq<State>, ops: seq<Op>) {
    && |ss| == |ops| + 1
    && ss[0] == State([], [])
    && forall i {:trigger ops[i]} :: 0 <= i < |ops| ==> ss[i + 1] == Next(ss[i], ops[i])
  }

  // ---- The service ----

  class AssetService {
    var assets: seq<Asset>
    var assignments: seq<Assignment>

    constructor ()
      ensures View() == State([], [])
    {
      assets, assignments := [], [];
    }

    function View(): State
      reads this
    {
      State(assets, assignments)
    }

    method Create(tag: string) returns (refusal: Option<Refusal>)
      modifies this
      ensures refusal == Refused(old(View()), Op.Create(tag)) && View() == Next(old(View()), Op.Create(tag))
    {
      if TagUsed(assets, tag) {
        return Some(TagTaken);
      }
      assets := assets + [Asset(tag, InStock, None)];
      return None;
    }

    method Assign(asset: AssetId, employee: EmployeeId, now: int, employeeExists: bool)
      returns (refusal: Option<Refusal>)
      modifies this
      ensures var op := Op.Assign(asset, employee, now, employeeExists);
              refusal == Refused(old(View()), op) && View() == Next(old(View()), op)
    {
      if asset >= |assets| {
        return Some(AssetNotFound);
      }
      if assets[asset].status == Retired || assets[asset].status == Lost {
        return Some(AssetRetired);
      }
      if assets[asset].assignedTo.Some? {
        return Some(AlreadyAssigned);
      }
      if !employeeExists {
        return Some(EmployeeNotFound);
      }
      assets := assets[asset := assets[asset].(status := Assigned, assignedTo := Some(employee))];
      assignments := assignments + [Assignment(asset, employee, now, None)];
      return None;
    }

    method Unassign(asset: AssetId, now: int) returns (refusal: Option<Refusal>)
      modifies this
      ensures var op := Op.Unassign(asset, now);
              refusal == Refused(old(View()), op) && View() == Next(old(View()), op)
    {
      if asset >= |assets| {
        return Some(AssetNotFound);
      }
      if assets[asset].assignedTo.None? {
        return Some(NotAssigned);
      }
      assets := assets[asset := assets[asset].(status := InStock, assignedTo := None)];
      assignments := CloseAsset(assignments, asset, now);
      return None;
    }

    method Retire(asset: AssetId) returns (refusal: Option<Refusal>)
      modifies this
      ensures refusal == Refused(old(View()), Op.Retire(asset)) && View() == Next(old(View()), Op.Retire(asset))
    {
      if asset >= |assets| {
        return Some(AssetNotFound);
      }
      if assets[asset].status == Retired {
        return Some(AssetRetired);
      }
      if assets[asset].status == Assigned {
        return Some(AlreadyAssigned);
      }
      assets := assets[asset := assets[asset].(status := Retired, assignedTo := None)];
      return None;
    }
  }

  // ---- The invariant ----

  ghost predicate OpenAt(rows: seq<Assignment>, i: nat, asset: AssetId) {
    i < |rows| && rows[i].asset == asset && Open(rows[i])
  }

  /**
   * An asset is assigned exactly while it has an open assignment row, that row is unique, and its
   * employee is assignedTo. A retired asset has no assignee.
   */
  ghost predicate AssetInv(s: State, asset: AssetId)
    requires asset < |s.assets|
  {
    var a := s.assets[asset];
    && (a.status == Assigned <==> exists i: nat :: OpenAt(s.assignments, i, asset))
    && (forall i: nat, j: nat :: OpenAt(s.assignments, i, asset) && OpenAt(s.assignments, j, asset) ==> i == j)
    && (forall i: nat :: OpenAt(s.assignments, i, asset) ==> a.assignedTo == Some(s.assignments[i].employee))
    && (a.status == Retired ==> a.assignedTo.None?)
  }

  ghost predicate Inv(s: State) {
    && (forall asset :: 0 <= asset < |s.assets| ==> AssetInv(s, asset))
    && (forall i :: 0 <= i < |s.assignments| ==> s.assignments[i].asset < |s.assets|)
  }

  // The row of an asset an operation does not concern.
  lemma UntouchedAsset(s: State, s': State, asset: AssetId)
    requires asset < |s.assets| && asset < |s'.assets| && s'.assets[asset] == s.assets[asset] && AssetInv(s, asset)
    requires |s.assignments| <= |s'.assignments|
    requires forall i :: 0 <= i < |s.assignments| && s.assignments[i].asset == asset ==>
               s'.assignments[i] == s.assignments[i]
    requires forall i :: 0 <= i < |s.assignments| ==> s'.assignments[i].asset == s.assignments[i].asset
    requires forall i :: |s.assignments| <= i < |s'.assignments| ==> s'.assignments[i].asset != asset
    ensures AssetInv(s', asset)
  {
    forall i: nat ensures OpenAt(s'.assignments, i, asset) <==> OpenAt(s.assignments, i, asset) {
    }
  }

  lemma CreateKeepsInv(s: State, tag: string)
    requires Inv(s)
    ensures Inv(Next(s, Create(tag)))
  {
    var s' := Next(s, Create(tag));
    if s' != s {
      forall asset | 0 <= asset < |s'.assets| ensures AssetInv(s', asset) {
        if asset < |s.assets| {
          UntouchedAsset(s, s', asset);
        } else {
          assert forall i: nat :: !OpenAt(s'.assignments, i, asset);
        }
      }
    }
  }

  lemma AssignKeepsInv(s: State, op: Op)
    requires Inv(s) && op.Assign?
    ensures Inv(Next(s, op))
  {
    var s' := Next(s, op);
    if s' != s {
      forall asset | 0 <= asset < |s'.assets| ensures AssetInv(s', asset) {
        if asset != op.asset {
          UntouchedAsset(s, s', asset);
        } else {
          assert AssetInv(s, asset);
          var last := |s.assignments|;
          assert OpenAt(s'.assignments, last, asset);
          forall i: nat ensures OpenAt(s'.assignments, i, asset) <==> i == last || OpenAt(s.assignments, i, asset) {
          }
        }
      }
    }
  }

  lemma UnassignKeepsInv(s: State, asset: AssetId, now: int)
    requires Inv(s)
    ensures Inv(Next(s, Unassign(asset, now)))
  {
    var s' := Next(s, Unassign(asset, now));
    if Refused(s, Unassign(asset, now)).None? {
      forall other | 0 <= other < |s'.assets| ensures AssetInv(s', other) {
        if other != asset {
          UntouchedAsset(s, s', other);
        } else {
          assert forall i: nat :: !OpenAt(s'.assignments, i, asset);
        }
      }
    }
  }

  lemma RetireKeepsInv(s: State, asset: AssetId)
    requires Inv(s)
    ensures Inv(Next(s, Retire(asset)))
  {
    var s' := Next(s, Retire(asset));
    if s' != s {
      forall other | 0 <= other < |s'.assets| ensures AssetInv(s', other) {
        if other != asset {
          UntouchedAsset(s, s', other);
        } else {
          assert AssetInv(s, asset);
        }
      }
    }
  }

  lemma HeldIsOpen(rows: seq<Assignment>, employee: EmployeeId, asset: AssetId)
    ensures Holds(rows, employee, asset) <==> exists i: nat :: OpenAt(rows, i, asset) && rows[i].employee == employee
  {
    if Holds(rows, employee, asset) {
      var r :| r in rows && r.employee == employee && r.asset == asset && Open(r);
      var i: nat :| i < |rows| && rows[i] == r;
      assert OpenAt(rows, i, asset);
    }
  }

  lemma ReturnAllKeepsInv(s: State, employee: EmployeeId, now: int)
    requires Inv(s)
    ensures Inv(Next(s, ReturnAll(employee, now)))
  {
    var s' := Next(s, ReturnAll(employee, now));
    forall asset | 0 <= asset < |s'.assets| ensures AssetInv(s', asset) {
      assert AssetInv(s, asset);
      HeldIsOpen(s.assignments, employee, asset);
      if Holds(s.assignments, employee, asset) {
        var i: nat :| OpenAt(s.assignments, i, asset) && s.assignments[i].employee == employee;
        forall j: nat ensures !OpenAt(s'.assignments, j, asset) {
          assert OpenAt(s'.assignments, j, asset) ==> OpenAt(s.assignments, j, asset);
        }
      } else {
        forall j: nat ensures OpenAt(s'.assignments, j, asset) <==> OpenAt(s.assignments, j, asset) {
        }
      }
    }
  }

  lemma StepKeepsInv(s: State, op: Op)
    requires Inv(s)
    ensures Inv(Next(s, op))
  {
    match op
    case Create(tag) => CreateKeepsInv(s, tag);
    case Assign(_, _, _, _) => AssignKeepsInv(s, op);
    case Unassign(asset, now) => UnassignKeepsInv(s, asset, now);
    case Retire(asset) => RetireKeepsInv(s, asset);
    case ReturnAll(employee, now) => ReturnAllKeepsInv(s, employee, now);
  }

  lemma {:induction false} RunKeepsInv(ss: seq<State>, ops: seq<Op>, i: nat)
    requires IsRun(ss, ops) && i < |ss|
    ensures Inv(ss[i])
  {
    if i > 0 {
      RunKeepsInv(ss, ops, i - 1);
      var op := ops[i - 1];
      StepKeepsInv(ss[i - 1], op);
    }
  }

  // ---- Results ----

  /** Whatever happened, the assets table and the history name the same holder, or both name none. */
  lemma TablesAgree(ss: seq<State>, ops: seq<Op>, i: nat, asset: AssetId)
    requires IsRun(ss, ops) && i < |ss| && asset < |ss[i].assets|
    ensures var s := ss[i];
            && (s.assets[asset].status == Assigned <==> exists k: nat :: OpenAt(s.assignments, k, asset))
            && (forall k: nat, l: nat :: OpenAt(s.assignments, k, asset) && OpenAt(s.assignments, l, asset) ==> k == l)
            && (forall k: nat :: OpenAt(s.assignments, k, asset) ==>
                  s.assets[asset].assignedTo == Some(s.assignments[k].employee))
  {
    RunKeepsInv(ss, ops, i);
    assert AssetInv(ss[i], asset);
  }

  /** No two assets carry the same tag. */
  lemma {:induction false} TagsAreUnique(ss: seq<State>, ops: seq<Op>, i: nat, a: AssetId, b: AssetId)
    requires IsRun(ss, ops) && i < |ss| && a < b < |ss[i].assets|
    ensures ss[i].assets[a].tag != ss[i].assets[b].tag
  {
    var op := ops[i - 1];
    if b < |ss[i - 1].assets| {
      TagsAreUnique(ss, ops, i - 1, a, b);
    } else {
      assert ss[i - 1].assets[a] in ss[i - 1].assets;
    }
  }

  // Who may be given the asset, taken out of their hands, or scrapped.
  predicate Assignable(a: Asset) {
    a.status != Retired && a.status != Lost && a.assignedTo.None?
  }

  predicate Retirable(a: Asset) {
    a.status != Retired && a.status != Assigned
  }

  /**
   * What becomes of an asset in a step: assigned to whom it was given, in stock with nobody after an unassign,
   * retired with nobody after a retirement, each exactly when its guards allow it, and back in stock with its
   * holder's name on it after that holder's offboarding. Nothing else touches it.
   */
  lemma AssetFollows(ss: seq<State>, ops: seq<Op>, i: nat, asset: AssetId)
    requires IsRun(ss, ops) && i < |ops| && asset < |ss[i].assets|
    ensures asset < |ss[i + 1].assets| && ss[i + 1].assets[asset].tag == ss[i].assets[asset].tag
    ensures var op, a, a' := ops[i], ss[i].assets[asset], ss[i + 1].assets[asset];
            if op.Assign? && op.asset == asset && op.employeeExists && Assignable(a)
            then a'.status == Assigned && a'.assignedTo == Some(op.employee)
            else if op.Unassign? && op.asset == asset && a.assignedTo.Some?
            then a'.status == InStock && a'.assignedTo.None?
            else if op.Retire? && op.asset == asset && Retirable(a)
            then a'.status == Retired && a'.assignedTo.None?
            else if op.ReturnAll? && a.status == Assigned && a.assignedTo == Some(op.employee)
            then a'.status == InStock && a'.assignedTo == a.assignedTo
            else a' == a
  {
    RunKeepsInv(ss, ops, i);
    var s, op := ss[i], ops[i];
    assert AssetInv(s, asset);
    if op.ReturnAll? {
      HeldIsOpen(s.assignments, op.employee, asset);
      if s.assets[asset].status == Assigned {
        var k: nat :| OpenAt(s.assignments, k, asset);
        assert s.assets[asset].assignedTo == Some(s.assignments[k].employee);
      }
    }
  }

  /**
   * The history is append-only: a row is written by the assignment it records, and closed once, at the time of
   * the unassign of its asset or of the offboarding of its employee.
   */
  lemma HistoryIsExact(ss: seq<State>, ops: seq<Op>, i: nat, k: nat)
    requires IsRun(ss, ops) && i < |ops| && k < |ss[i + 1].assignments|
    ensures |ss[i].assignments| <= |ss[i + 1].assignments|
    ensures k >= |ss[i].assignments| ==>
              && k == |ss[i].assignments| && ops[i].Assign? && ops[i].employeeExists
              && ss[i + 1].assignments[k] == Assignment(ops[i].asset, ops[i].employee, ops[i].now, None)
    ensures k < |ss[i].assignments| ==>
              var op, row := ops[i], ss[i].assignments[k];
              ss[i + 1].assignments[k].(returnedAt := None) == row.(returnedAt := None)
              && ss[i + 1].assignments[k].returnedAt
                 == if row.returnedAt.None? && ((op.Unassign? && op.asset == row.asset && row.asset < |ss[i].assets|
                                                 && ss[i].assets[row.asset].assignedTo.Some?)
                                                || (op.ReturnAll? && op.employee == row.employee))
                    then Some(op.now) else row.returnedAt
  {
    var op := ops[i];
  }

  /** In stock, yet still carrying the name of an employee: what offboarding leaves behind. */
  predicate Stranded(s: State, asset: AssetId) {
    asset < |s.assets| && s.assets[asset].status == InStock && s.assets[asset].assignedTo.Some?
  }

  /** Only the offboarding of its holder strands an asset, and only an unassign or a retirement frees it again. */
  lemma StrandedExactly(ss: seq<State>, ops: seq<Op>, i: nat, asset: AssetId)
    requires IsRun(ss, ops) && i < |ops| && asset < |ss[i].assets|
    ensures asset < |ss[i + 1].assets|
    ensures Stranded(ss[i + 1], asset) <==>
            || (Stranded(ss[i], asset) && !(ops[i].Unassign? && ops[i].asset == asset)
                && !(ops[i].Retire? && ops[i].asset == asset))
            || (ops[i].ReturnAll? && ss[i].assets[asset].status == Assigned
                && ss[i].assets[asset].assignedTo == Some(ops[i].employee))
  {
    RunKeepsInv(ss, ops, i);
    var s, op := ss[i], ops[i];
    assert AssetInv(s, asset);
    if op.ReturnAll? {
      HeldIsOpen(s.assignments, op.employee, asset);
      if s.assets[asset].status == Assigned {
        var k: nat :| OpenAt(s.assignments, k, asset);
        assert s.assets[asset].assignedTo == Some(s.assignments[k].employee);
      }
    }
  }

  /** A stranded asset cannot be given to anyone until then, although it is in stock. */
  lemma {:induction false} StrandedStaysUnassignable(ss: seq<State>, ops: seq<Op>, i: nat, j: nat, asset: AssetId,
                                                     employee: EmployeeId, now: int)
    requires IsRun(ss, ops) && i <= j < |ss| && Stranded(ss[i], asset)
    requires forall k {:trigger ops[k]} :: i <= k < j ==>
               !(ops[k].Unassign? && ops[k].asset == asset) && !(ops[k].Retire? && ops[k].asset == asset)
    ensures Stranded(ss[j], asset) && Refused(ss[j], Assign(asset, employee, now, true)).Some?
  {
    if i < j {
      StrandedStaysUnassignable(ss, ops, i, j - 1, asset, employee, now);
      var op := ops[j - 1];
      StrandedExactly(ss, ops, j - 1, asset);
    }
  }

  /** A concrete run: an asset is bought, assigned, and returned by its holder's offboarding. */
  lemma OffboardingStrands(tag: string, employee: EmployeeId) returns (ss: seq<State>, ops: seq<Op>)
    ensures IsRun(ss, ops) && ops == [Create(tag), Assign(0, employee, 1, true), ReturnAll(employee, 2)]
    ensures Stranded(ss[3], 0) && ss[3].assets[0].assignedTo == Some(employee)
  {
    ops := [Create(tag), Assign(0, employee, 1, true), ReturnAll(employee, 2)];
    var s0 := State([], []);
    var s1 := Next(s0, ops[0]);
    assert s1 == State([Asset(tag, InStock, None)], []);
    var s2 := Next(s1, ops[1]);
    assert s2 == State([Asset(tag, Assigned, Some(employee))], [Assignment(0, employee, 1, None)]);
    assert Assignment(0, employee, 1, None) in s2.assignments;
    assert Holds(s2.assignments, employee, 0);
    ss := [s0, s1, s2, Next(s2, ops[2])];
  }
}

/**
 * The approval hook of an offboarding request: one transaction over five tables, which must leave the
 * employee with nothing and everybody else with what they had.
 */
module Offboarding {
  import opened Common
  import A = Assets
  import G = AccessRequests
  import S = Sessions
  import Z = Authz

  type EmployeeId = string

  datatype Tables = Tables(
    employees: Directory,
    roles: seq<Z.Assignment>,
    grants: seq<G.Grant>,
    assets: A.State,
    tokens: map<S.Token, S.Row>)

  // ---- The five updates ----

  type Directory = map<EmployeeId, S.EmployeeStatus>

  function MarkOffboarded(employees: Directory, employee: EmployeeId): Directory {
    if employee in employees then employees[employee := S.Offboarded] else employees
  }

  function RolesOfOthers(roles: seq<Z.Assignment>, employee: EmployeeId): seq<Z.Assignment> {
    Filter(OfOther(employee), roles)
  }

  function OfOther(employee: EmployeeId): Z.Assignment -> bool {
    (a: Z.Assignment) => a.user != employee
  }

  function RevokeGrants(grants: seq<G.Grant>, employee: EmployeeId, now: int): seq<G.Grant> {
    seq(|grants|, i requires 0 <= i < |grants| =>
      if grants[i].grantee == employee && grants[i].revokedAt.None? then grants[i].(revokedAt := Some(now))
      else grants[i])
  }

  // RETURNING asset_id of the rows that are about to be closed.
  function ReturnedAssets(rows: seq<A.Assignment>, employee: EmployeeId): seq<A.AssetId> {
    if rows == [] then []
    else
      var last := rows[|rows| - 1];
      ReturnedAssets(rows[..|rows| - 1], employee)
      + if last.employee == employee && A.Open(last) then [last.asset] else []
  }

  function Restocked(assets: seq<A.Asset>, ids: seq<A.AssetId>): seq<A.Asset> {
    seq(|assets|, i requires 0 <= i < |assets| => if i in ids then assets[i].(status := A.InStock) else assets[i])
  }

  function AfterApprove(t: Tables, employee: EmployeeId, now: int): Tables {
    Tables(MarkOffboarded(t.employees, employee),
           RolesOfOthers(t.roles, employee),
           RevokeGrants(t.grants, employee, now),
           A.Next(t.assets, A.ReturnAll(employee, now)),
           S.RevokeEmployeeRows(t.tokens, employee))
  }

  // ---- The hook ----

  class OffboardingTypeDef {
    var employees: Directory
    var roles: seq<Z.Assignment>
    var grants: seq<G.Grant>
    var assets: seq<A.Asset>
    var assignments: seq<A.Assignment>
    var tokens: map<S.Token, S.Row>

    constructor (t: Tables)
      ensures View() == t
    {
      employees, roles, grants, tokens := t.employees, t.roles, t.grants, t.tokens;
      assets, assignments := t.assets.assets, t.assets.assignments;
    }

    function View(): Tables
      reads this
    {
      Tables(employees, roles, grants, A.State(assets, assignments), tokens)
    }

    method OnApprove(employeeId: EmployeeId, now: int)
      modifies this
      ensures View() == AfterApprove(old(View()), employeeId, now)
    {
      if employeeId in employees {
        employees := employees[employeeId := S.Offboarded];
      }
      roles := RolesOfOthers(roles, employeeId);
      grants := RevokeGrants(grants, employeeId, now);
      ReturnAssets(employeeId, now);
      RevokeTokens(employeeId);
    }

    method ReturnAssets(employeeId: EmployeeId, now: int)
      modifies `assets, `assignments
      ensures A.State(assets, assignments) == A.Next(old(A.State(assets, assignments)), A.ReturnAll(employeeId, now))
    {
      ghost var before := assets;
      var assetIds := ReturnedAssets(assignments, employeeId);
      RestockedIsHeld(assets, assignments, employeeId);
      assignments := A.CloseEmployee(assignments, employeeId, now);
      assert assets == Restocked(before, assetIds[..0]);
      for i := 0 to |assetIds|
        modifies `assets
        invariant assets == Restocked(before, assetIds[..i])
      {
        RestockOne(before, assetIds, i);
        if assetIds[i] < |assets| {
          assets := assets[assetIds[i] := assets[assetIds[i]].(status := A.InStock)];
        }
      }
      assert assetIds[..|assetIds|] == assetIds;
    }

    method RevokeTokens(employeeId: EmployeeId)
      modifies `tokens
      ensures tokens == S.RevokeEmployeeRows(old(tokens), employeeId)
    {
      tokens := map t | t in tokens ::
        if tokens[t].employee == employeeId && !tokens[t].revoked then tokens[t].(revoked := true) else tokens[t];
    }
  }

  lemma RestockOne(assets: seq<A.Asset>, ids: seq<A.AssetId>, n: nat)
    requires n < |ids|
    ensures var before := Restocked(assets, ids[..n]);
            Restocked(assets, ids[..n + 1])
            == if ids[n] < |before| then before[ids[n] := before[ids[n]].(status := A.InStock)] else before
  {
    assert ids[..n + 1] == ids[..n] + [ids[n]];
  }

  lemma {:induction false} ReturnedAreHeld(rows: seq<A.Assignment>, employee: EmployeeId, asset: A.AssetId)
    ensures asset in ReturnedAssets(rows, employee) <==> A.Holds(rows, employee, asset)
  {
    if rows != [] {
      var init, last := rows[..|rows| - 1], rows[|rows| - 1];
      ReturnedAreHeld(init, employee, asset);
      assert rows == init + [last];
      if A.Holds(init, employee, asset) {
        var r :| r in init && r.employee == employee && r.asset == asset && A.Open(r);
        assert r in rows;
      }
      assert last in rows;
    }
  }

  lemma RestockedIsHeld(assets: seq<A.Asset>, rows: seq<A.Assignment>, employee: EmployeeId)
    ensures Restocked(assets, ReturnedAssets(rows, employee)) == A.RestockHeld(assets, rows, employee)
  {
    forall i | 0 <= i < |assets|
      ensures i in ReturnedAssets(rows, employee) <==> A.Holds(rows, employee, i)
    {
      ReturnedAreHeld(rows, employee, i);
    }
  }

  // ---- Results ----

  /**
   * Nothing of the employee is left: status, role assignments, grants, assets and tokens. What was live ends now,
   * and nothing else about it changes.
   */
  lemma OffboardingIsComplete(t: Tables, employee: EmployeeId, now: int)
    ensures var t' := AfterApprove(t, employee, now);
            && (employee in t.employees ==> t'.employees == t.employees[employee := S.Offboarded])
            && (forall a :: a in t'.roles ==> a.user != employee)
            && (forall g :: g in t'.grants && g.grantee == employee ==> g.revokedAt.Some?)
            && (forall r :: r in t'.assets.assignments && r.employee == employee ==> !A.Open(r))
            && (forall u :: u in t'.tokens && t'.tokens[u].employee == employee ==> t'.tokens[u].revoked)
            && |t'.grants| == |t.grants| && |t'.assets.assignments| == |t.assets.assignments|
            && (forall i :: 0 <= i < |t.grants| && t.grants[i].grantee == employee && t.grants[i].revokedAt.None? ==>
                  t'.grants[i] == t.grants[i].(revokedAt := Some(now)))
            && (forall i :: 0 <= i < |t.assets.assignments| && t.assets.assignments[i].employee == employee
                            && t.assets.assignments[i].returnedAt.None? ==>
                  t'.assets.assignments[i] == t.assets.assignments[i].(returnedAt := Some(now)))
            && t'.tokens.Keys == t.tokens.Keys
            && (forall u :: u in t.tokens && t.tokens[u].employee == employee ==>
                  t'.tokens[u] == t.tokens[u].(revoked := true))
  {
    var t' := AfterApprove(t, employee, now);
    forall a | a in t'.roles ensures a.user != employee {
      FilterMember(OfOther(employee), t.roles, a);
    }
    forall g | g in t'.grants && g.grantee == employee ensures g.revokedAt.Some? {
      var i :| 0 <= i < |t'.grants| && t'.grants[i] == g;
    }
    forall r | r in t'.assets.assignments && r.employee == employee ensures !A.Open(r) {
      var i :| 0 <= i < |t'.assets.assignments| && t'.assets.assignments[i] == r;
    }
  }

  /**
   * No other employee's row changes in any table, a grant revoked or an asset returned earlier keeps its
   * date, and an asset the employee does not hold keeps its status and holder.
   */
  lemma OffboardingIsFramed(t: Tables, employee: EmployeeId, now: int)
    requires A.Inv(t.assets)
    ensures var t' := AfterApprove(t, employee, now);
            && t'.employees.Keys == t.employees.Keys
            && (forall e :: e in t.employees && e != employee ==> t'.employees[e] == t.employees[e])
            && (forall a: Z.Assignment :: a.user != employee ==> multiset(t'.roles)[a] == multiset(t.roles)[a])
            && |t'.grants| == |t.grants|
            && (forall i :: 0 <= i < |t.grants| && (t.grants[i].grantee != employee || t.grants[i].revokedAt.Some?)
                  ==> t'.grants[i] == t.grants[i])
            && |t'.assets.assignments| == |t.assets.assignments|
            && (forall i :: 0 <= i < |t.assets.assignments|
                            && (t.assets.assignments[i].employee != employee || !A.Open(t.assets.assignments[i]))
                  ==> t'.assets.assignments[i] == t.assets.assignments[i])
            && |t'.assets.assets| == |t.assets.assets|
            && (forall i :: 0 <= i < |t.assets.assets| ==>
                  t'.assets.assets[i] == if t.assets.assets[i].status == A.Assigned
                                            && t.assets.assets[i].assignedTo == Some(employee)
                                         then t.assets.assets[i].(status := A.InStock) else t.assets.assets[i])
            && t'.tokens.Keys == t.tokens.Keys
            && (forall u :: u in t.tokens && t.tokens[u].employee != employee ==> t'.tokens[u] == t.tokens[u])
  {
    forall a: Z.Assignment | a.user != employee
      ensures multiset(AfterApprove(t, employee, now).roles)[a] == multiset(t.roles)[a]
    {
      FilterCount(OfOther(employee), t.roles, a);
    }
    forall i | 0 <= i < |t.assets.assets|
      ensures A.Holds(t.assets.assignments, employee, i)
              <==> t.assets.assets[i].status == A.Assigned && t.assets.assets[i].assignedTo == Some(employee)
    {
      HolderIsAssignee(t.assets, employee, i);
    }
  }

  lemma HolderIsAssignee(s: A.State, employee: EmployeeId, asset: A.AssetId)
    requires asset < |s.assets| && A.AssetInv(s, asset)
    ensures A.Holds(s.assignments, employee, asset)
            <==> s.assets[asset].status == A.Assigned && s.assets[asset].assignedTo == Some(employee)
  {
    A.HeldIsOpen(s.assignments, employee, asset);
    if s.assets[asset].status == A.Assigned {
      var i: nat :| A.OpenAt(s.assignments, i, asset);
      assert s.assets[asset].assignedTo == Some(s.assignments[i].employee);
    }
  }

  /** The hook keeps what the asset operations and the session operations keep: it is a step of both machines. */
  lemma OffboardingKeepsInvariants(t: Tables, employee: EmployeeId, now: int, nextToken: nat, nextFamily: nat)
    requires A.Inv(t.assets) && S.Inv(S.State(t.employees, t.tokens, nextToken, nextFamily))
    ensures var t' := AfterApprove(t, employee, now);
            A.Inv(t'.assets) && S.Inv(S.State(t'.employees, t'.tokens, nextToken, nextFamily))
  {
    A.StepKeepsInv(t.assets, A.ReturnAll(employee, now));
    S.StepKeepsInv(S.State(t.employees, t.tokens, nextToken, nextFamily), S.ApproveOffboarding(employee), 0);
  }

  /** Running the hook a second time changes nothing: approving two requests for one employee is harmless. */
  lemma OffboardingIsIdempotent(t: Tables, employee: EmployeeId, now: int, later: int)
    ensures var t' := AfterApprove(t, employee, now);
            AfterApprove(t', employee, later) == t'
  {
    FilterTwice(OfOther(employee), OfOther(employee), OfOther(employee), t.roles);
    GrantsStay(t.grants, employee, now, later);
    AssetsStay(t.assets, employee, now, later);
    EmployeesStay(t.employees, t.tokens, employee);
  }

  lemma EmployeesStay(employees: Directory, tokens: map<S.Token, S.Row>, employee: EmployeeId)
    ensures MarkOffboarded(MarkOffboarded(employees, employee), employee) == MarkOffboarded(employees, employee)
    ensures var once := S.RevokeEmployeeRows(tokens, employee);
            S.RevokeEmployeeRows(once, employee) == once
  {
  }

  lemma GrantsStay(grants: seq<G.Grant>, employee: EmployeeId, now: int, later: int)
    ensures var once := RevokeGrants(grants, employee, now);
            RevokeGrants(once, employee, later) == once
  {
  }

  lemma AssetsStay(s: A.State, employee: EmployeeId, now: int, later: int)
    ensures var once := A.Next(s, A.ReturnAll(employee, now));
            A.Next(once, A.ReturnAll(employee, later)) == once
  {
    var once := A.Next(s, A.ReturnAll(employee, now));
    forall i | 0 <= i < |once.assets| ensures !A.Holds(once.assignments, employee, i) {
      A.HeldIsOpen(once.assignments, employee, i);
    }
    assert A.RestockHeld(once.assets, once.assignments, employee) == once.assets;
    assert A.CloseEmployee(once.assignments, employee, later) == once.assignments;
  }
}

/**
 * Refresh-token families: every login starts one, every refresh rotates its token, and using a token
 * twice kills the family. Calls run one after another; a token is found by its hash, and hashing is
 * injective, so a token is identified with its hash.
 */
module Sessions {
  import opened Common

  type EmployeeId = string
  type Token = nat   // fresh when minted
  type Family = nat

  const MS_PER_DAY := 86_400_000

  datatype EmployeeStatus = Active | OnLeave | Offboarded

  datatype Row = Row(employee: EmployeeId, family: Family, revoked: bool, expiresAt: int)

  datatype State = State(
    employees: map<EmployeeId, EmployeeStatus>,
    tokens: map<Token, Row>,
    nextToken: Token,
    nextFamily: Family)

  datatype Refusal = UnknownEmployee | InvalidToken | ReuseDetected | TokenExpired | EmployeeInactive | EmployeeNotFound

  datatype Op =
    | Hire(employee: EmployeeId)
    | Login(employee: EmployeeId, now: int)
    | Refresh(token: Token, now: int)
    | Logout(token: Token)
    | UpdateStatus(employee: EmployeeId, status: EmployeeStatus)
    | ApproveOffboarding(employee: EmployeeId)
    | DeleteExpired(before: int)

  // ---- Table operations ----

  function RevokeOne(tokens: map<Token, Row>, token: Token): map<Token, Row> {
    if token in tokens then tokens[token := tokens[token].(revoked := true)] else tokens
  }

  function RevokeFamilyRows(tokens: map<Token, Row>, family: Family): map<Token, Row> {
    map t | t in tokens :: if tokens[t].family == family then tokens[t].(revoked := true) else tokens[t]
  }

  function RevokeEmployeeRows(tokens: map<Token, Row>, employee: EmployeeId): map<Token, Row> {
    map t | t in tokens :: if tokens[t].employee == employee then tokens[t].(revoked := true) else tokens[t]
  }

  function DeleteExpiredRows(tokens: map<Token, Row>, before: int): map<Token, Row> {
    map t | t in tokens && !(tokens[t].expiresAt < before && tokens[t].revoked) :: tokens[t]
  }

  function Mint(s: State, employee: EmployeeId, family: Family, expiryDays: nat, now: int): State {
    s.(tokens := s.tokens[s.nextToken := Row(employee, family, false, now + expiryDays * MS_PER_DAY)],
       nextToken := s.nextToken + 1)
  }

  // ---- Whole calls ----

  function ActiveRefusal(s: State, employee: EmployeeId): Option<Refusal> {
    if employee !in s.employees then Some(EmployeeNotFound)
    else if s.employees[employee] == Offboarded then Some(EmployeeInactive)
    else None
  }

  function Refused(s: State, op: Op): Option<Refusal> {
    match op
    case Login(employee, _) =>
      if employee !in s.employees then Some(UnknownEmployee)
      else if s.employees[employee] == Offboarded then Some(EmployeeInactive)
      else None
    case Refresh(token, now) =>
      if token !in s.tokens then Some(InvalidToken)
      else if s.tokens[token].revoked then Some(ReuseDetected)
      else if s.tokens[token].expiresAt < now then Some(TokenExpired)
      else ActiveRefusal(s, s.tokens[token].employee)
    case UpdateStatus(employee, _) => if employee !in s.employees then Some(EmployeeNotFound) else None
    case _ => None
  }

  /** A refused refresh still writes: a replayed token kills its family, and an inactive owner's token is spent. */
  function RefreshNext(s: State, token: Token, expiryDays: nat, now: int): State {
    if token !in s.tokens then s
    else
      var stored := s.tokens[token];
      if stored.revoked then s.(tokens := RevokeFamilyRows(s.tokens, stored.family))
      else if stored.expiresAt < now then s
      else
        var spent := s.(tokens := RevokeOne(s.tokens, token));
        if ActiveRefusal(s, stored.employee).Some? then spent
        else Mint(spent, stored.employee, stored.family, expiryDays, now)
  }

  function Next(s: State, op: Op, expiryDays: nat): State {
    match op
    case Hire(employee) => if employee in s.employees then s else s.(employees := s.employees[employee := Active])
    case Login(employee, now) =>
      if Refused(s, op).Some? then s
      else Mint(s.(nextFamily := s.nextFamily + 1), employee, s.nextFamily, expiryDays, now)
    case Refresh(token, now) => RefreshNext(s, token, expiryDays, now)
    case Logout(token) => s.(tokens := RevokeOne(s.tokens, token))
    case UpdateStatus(employee, status) =>
      if employee !in s.employees || s.employees[employee] == status then s
      else s.(employees := s.employees[employee := status],
              tokens := if status == Offboarded then RevokeEmployeeRows(s.tokens, employee) else s.tokens)
    case ApproveOffboarding(employee) =>
      s.(employees := if employee in s.employees then s.employees[employee := Offboarded] else s.employees,
         tokens := RevokeEmployeeRows(s.tokens, employee))
    case DeleteExpired(before) => s.(tokens := DeleteExpiredRows(s.tokens, before))
  }

  const INIT := State(map[], map[], 0, 0)

  ghost predicate IsRun(ss: seq<State>, ops: seq<Op>, expiryDays: nat) {
    && |ss| == |ops| + 1
    && ss[0] == INIT
    && forall i {:trigger ops[i]} :: 0 <= i < |ops| ==> ss[i + 1] == Next(ss[i], ops[i], expiryDays)
  }

  // ---- The service ----

  datatype Outcome = Ok(token: Token) | Error(refusal: Refusal)

  class AuthService {
    const expiryDays: nat
    var employees: map<EmployeeId, EmployeeStatus>
    var tokens: map<Token, Row>
    var nextToken: Token
    var nextFamily: Family

    constructor (expiryDays: nat)
      ensures this.expiryDays == expiryDays && View() == INIT
    {
      this.expiryDays := expiryDays;
      employees, tokens, nextToken, nextFamily := map[], map[], 0, 0;
    }

    function View(): State
      reads this
    {
      State(employees, tokens, nextToken, nextFamily)
    }

    method MintTokens(employee: EmployeeId, family: Family, now: int) returns (token: Token)
      modifies `tokens, `nextToken
      ensures View() == Mint(old(View()), employee, family, expiryDays, now) && token == old(nextToken)
    {
      token := nextToken;
      tokens := tokens[token := Row(employee, family, false, now + expiryDays * MS_PER_DAY)];
      nextToken := nextToken + 1;
    }

    method Login(employee: EmployeeId, now: int) returns (r: Outcome)
      modifies this
      ensures View() == Next(old(View()), Op.Login(employee, now), expiryDays)
      ensures r == var refusal := Refused(old(View()), Op.Login(employee, now));
                   if refusal.Some? then Error(refusal.value) else Ok(old(nextToken))
    {
      if employee !in employees {
        return Error(UnknownEmployee);
      }
      if employees[employee] == Offboarded {
        return Error(EmployeeInactive);
      }
      var family := nextFamily;
      nextFamily := nextFamily + 1;
      var token := MintTokens(employee, family, now);
      return Ok(token);
    }

    method RevokeById(token: Token)
      modifies `tokens
      ensures tokens == RevokeOne(old(tokens), token)
    {
      if token in tokens {
        tokens := tokens[token := tokens[token].(revoked := true)];
      }
    }

    method Refresh(token: Token, now: int) returns (r: Outcome)
      modifies this
      ensures View() == Next(old(View()), Op.Refresh(token, now), expiryDays)
      ensures r == var refusal := Refused(old(View()), Op.Refresh(token, now));
                   if refusal.Some? then Error(refusal.value) else Ok(old(nextToken))
    {
      if token !in tokens {
        return Error(InvalidToken);
      }
      var stored := tokens[token];
      if stored.revoked {
        tokens := RevokeFamilyRows(tokens, stored.family);
        return Error(ReuseDetected);
      }
      if stored.expiresAt < now {
        return Error(TokenExpired);
      }
      RevokeById(token);
      if stored.employee !in employees {
        return Error(EmployeeNotFound);
      }
      if employees[stored.employee] == Offboarded {
        return Error(EmployeeInactive);
      }
      var minted := MintTokens(stored.employee, stored.family, now);
      return Ok(minted);
    }

    method Logout(token: Token)
      modifies this
      ensures View() == Next(old(View()), Op.Logout(token), expiryDays)
    {
      if token !in tokens || tokens[token].revoked {
        assert RevokeOne(tokens, token) == tokens;
        return;
      }
      RevokeById(token);
    }

    method UpdateStatus(employee: EmployeeId, status: EmployeeStatus) returns (refusal: Option<Refusal>)
      modifies this
      ensures View() == Next(old(View()), Op.UpdateStatus(employee, status), expiryDays)
      ensures refusal == Refused(old(View()), Op.UpdateStatus(employee, status))
    {
      if employee !in employees {
        return Some(EmployeeNotFound);
      }
      if employees[employee] == status {
        return None;
      }
      employees := employees[employee := status];
      if status == Offboarded {
        tokens := RevokeEmployeeRows(tokens, employee);
      }
      return None;
    }
  }

  // ---- The invariant ----

  ghost predicate OneEmployee(s: State) {
    forall t, u :: t in s.tokens && u in s.tokens && s.tokens[t].family == s.tokens[u].family
      ==> s.tokens[t].employee == s.tokens[u].employee
  }

  ghost predicate OneLive(s: State) {
    forall t, u :: t in s.tokens && u in s.tokens && s.tokens[t].family == s.tokens[u].family && t != u
      ==> s.tokens[t].revoked || s.tokens[u].revoked
  }

  ghost predicate OffboardedAreOut(s: State) {
    forall t :: t in s.tokens && !s.tokens[t].revoked
      ==> s.tokens[t].employee in s.employees && s.employees[s.tokens[t].employee] != Offboarded
  }

  ghost predicate Counted(s: State) {
    forall t :: t in s.tokens ==> t < s.nextToken && s.tokens[t].family < s.nextFamily
  }

  ghost predicate Inv(s: State) {
    OneEmployee(s) && OneLive(s) && OffboardedAreOut(s) && Counted(s)
  }

  // A step that adds no row and only revokes or deletes keeps everything about families.
  ghost predicate OnlyRevokes(before: map<Token, Row>, after: map<Token, Row>) {
    forall t :: t in after ==>
      && t in before && after[t].employee == before[t].employee && after[t].family == before[t].family
      && (before[t].revoked ==> after[t].revoked)
  }

  lemma RevokingKeepsInv(s: State, s': State)
    requires Inv(s) && OnlyRevokes(s.tokens, s'.tokens)
    requires s'.nextToken == s.nextToken && s'.nextFamily == s.nextFamily
    requires forall t :: t in s'.tokens && !s'.tokens[t].revoked ==>
               var e := s'.tokens[t].employee;
               e in s.employees ==>
                 e in s'.employees && (s'.employees[e] == Offboarded ==> s.employees[e] == Offboarded)
    ensures Inv(s')
  {
    forall t, u | t in s'.tokens && u in s'.tokens && s'.tokens[t].family == s'.tokens[u].family
      ensures s'.tokens[t].employee == s'.tokens[u].employee
      ensures !s'.tokens[t].revoked && !s'.tokens[u].revoked ==> t == u
    {
      assert t in s.tokens && u in s.tokens;
    }
  }

  lemma MintKeepsInv(s: State, employee: EmployeeId, family: Family, expiryDays: nat, now: int)
    requires Inv(s) && family < s.nextFamily
    requires employee in s.employees && s.employees[employee] != Offboarded
    requires forall t :: t in s.tokens && s.tokens[t].family == family ==>
               s.tokens[t].revoked && s.tokens[t].employee == employee
    ensures Inv(Mint(s, employee, family, expiryDays, now))
  {
  }

  lemma RefreshKeepsInv(s: State, token: Token, expiryDays: nat, now: int)
    requires Inv(s)
    ensures Inv(RefreshNext(s, token, expiryDays, now))
  {
    if token in s.tokens {
      var stored := s.tokens[token];
      if stored.revoked {
        RevokingKeepsInv(s, s.(tokens := RevokeFamilyRows(s.tokens, stored.family)));
      } else if stored.expiresAt >= now {
        var spent := s.(tokens := RevokeOne(s.tokens, token));
        RevokingKeepsInv(s, spent);
        MintKeepsInv(spent, stored.employee, stored.family, expiryDays, now);
      }
    }
  }

  lemma StaffingKeepsInv(s: State, op: Op, expiryDays: nat)
    requires Inv(s) && (op.UpdateStatus? || op.ApproveOffboarding?)
    ensures Inv(Next(s, op, expiryDays))
  {
    RevokingKeepsInv(s, Next(s, op, expiryDays));
  }

  lemma StepKeepsInv(s: State, op: Op, expiryDays: nat)
    requires Inv(s)
    ensures Inv(Next(s, op, expiryDays))
  {
    if op.Login? {
      if Refused(s, op).None? {
        MintKeepsInv(s.(nextFamily := s.nextFamily + 1), op.employee, s.nextFamily, expiryDays, op.now);
      }
    } else if op.Refresh? {
      RefreshKeepsInv(s, op.token, expiryDays, op.now);
    } else if op.UpdateStatus? || op.ApproveOffboarding? {
      StaffingKeepsInv(s, op, expiryDays);
    } else {
      RevokingKeepsInv(s, Next(s, op, expiryDays));
    }
  }

  lemma {:induction false} RunKeepsInv(ss: seq<State>, ops: seq<Op>, expiryDays: nat, i: nat)
    requires IsRun(ss, ops, expiryDays) && i < |ss|
    ensures Inv(ss[i])
  {
    if i > 0 {
      RunKeepsInv(ss, ops, expiryDays, i - 1);
      var op := ops[i - 1];
      StepKeepsInv(ss[i - 1], op, expiryDays);
    }
  }

  // ---- Results ----

  /** A family belongs to one employee and has at most one unrevoked token; an offboarded employee has none. */
  lemma FamiliesAreSound(ss: seq<State>, ops: seq<Op>, expiryDays: nat, i: nat, t: Token, u: Token)
    requires IsRun(ss, ops, expiryDays) && i < |ss| && t in ss[i].tokens && u in ss[i].tokens
    requires ss[i].tokens[t].family == ss[i].tokens[u].family
    ensures ss[i].tokens[t].employee == ss[i].tokens[u].employee
    ensures !ss[i].tokens[t].revoked && !ss[i].tokens[u].revoked ==> t == u
    ensures var e := ss[i].tokens[t].employee;
            e in ss[i].employees && ss[i].employees[e] == Offboarded ==> ss[i].tokens[t].revoked
  {
    RunKeepsInv(ss, ops, expiryDays, i);
  }

  /** A login succeeds exactly for a known employee who is not offboarded. */
  lemma LoginSucceedsIff(ss: seq<State>, ops: seq<Op>, expiryDays: nat, i: nat, e: EmployeeId, now: int)
    requires IsRun(ss, ops, expiryDays) && i < |ops| && ops[i] == Login(e, now)
    ensures Refused(ss[i], ops[i]).None? <==>
            e in ss[i].employees && (ss[i].employees[e] == Active || ss[i].employees[e] == OnLeave)
    ensures ss[i + 1] != ss[i] <==>
            e in ss[i].employees && (ss[i].employees[e] == Active || ss[i].employees[e] == OnLeave)
  {
  }

  /** A login starts a family of its own: one unrevoked token of the configured days, and no other row changes. */
  lemma LoginStartsFamily(ss: seq<State>, ops: seq<Op>, expiryDays: nat, i: nat, e: EmployeeId, now: int)
    requires IsRun(ss, ops, expiryDays) && i < |ops| && ops[i] == Login(e, now) && Refused(ss[i], ops[i]).None?
    ensures var minted, family := ss[i].nextToken, ss[i].nextFamily;
            && minted !in ss[i].tokens && (forall t :: t in ss[i].tokens ==> ss[i].tokens[t].family != family)
            && ss[i + 1].tokens == ss[i].tokens[minted := Row(e, family, false, now + expiryDays * 86_400_000)]
            && ss[i + 1].employees == ss[i].employees
  {
    RunKeepsInv(ss, ops, expiryDays, i);
  }

  /** A refresh succeeds exactly for a stored, unrevoked token that has not expired: the owner's status adds nothing. */
  lemma RefreshSucceedsIff(ss: seq<State>, ops: seq<Op>, expiryDays: nat, i: nat, t: Token, now: int)
    requires IsRun(ss, ops, expiryDays) && i < |ss|
    ensures Refused(ss[i], Refresh(t, now)).None? <==>
            t in ss[i].tokens && !ss[i].tokens[t].revoked && now <= ss[i].tokens[t].expiresAt
    ensures Refused(ss[i], Refresh(t, now)) == Some(InvalidToken) <==> t !in ss[i].tokens
    ensures Refused(ss[i], Refresh(t, now)) == Some(ReuseDetected) <==> t in ss[i].tokens && ss[i].tokens[t].revoked
  {
    RunKeepsInv(ss, ops, expiryDays, i);
  }

  ghost predicate OnlyLive(s: State, family: Family, token: Token) {
    && token in s.tokens
    && forall u :: u in s.tokens && s.tokens[u].family == family ==>
         (!s.tokens[u].revoked <==> u == token)
  }

  /** Rotation: the new token replaces the old one as the family's only unrevoked token. */
  lemma RefreshRotates(ss: seq<State>, ops: seq<Op>, expiryDays: nat, i: nat, t: Token, now: int)
    requires IsRun(ss, ops, expiryDays) && i < |ops| && ops[i] == Refresh(t, now) && Refused(ss[i], ops[i]).None?
    ensures var minted := ss[i].nextToken; var family := ss[i].tokens[t].family;
            && t != minted
            && OnlyLive(ss[i + 1], family, minted)
            && ss[i + 1].tokens[minted] == Row(ss[i].tokens[t].employee, family, false, now + expiryDays * 86_400_000)
  {
    RunKeepsInv(ss, ops, expiryDays, i);
  }

  /**
   * Whatever state it finds, a refresh by an owner who is gone or offboarded is refused, and the token is spent
   * all the same. No serial run gets there, since offboarding has revoked the token.
   */
  lemma InactiveOwnerSpendsToken(s: State, t: Token, expiryDays: nat, now: int)
    requires t in s.tokens && !s.tokens[t].revoked && now <= s.tokens[t].expiresAt
    requires var e := s.tokens[t].employee; e in s.employees ==> s.employees[e] == Offboarded
    ensures Refused(s, Refresh(t, now)) == Some(if s.tokens[t].employee in s.employees then EmployeeInactive
                                                else EmployeeNotFound)
    ensures Next(s, Refresh(t, now), expiryDays) == s.(tokens := s.tokens[t := s.tokens[t].(revoked := true)])
  {
  }

  // What a call leaves alone: rows that stay, and stay as they are.
  ghost predicate Keeps(s: State, s': State, t: Token) {
    t in s.tokens ==> t in s'.tokens && s'.tokens[t] == s.tokens[t]
  }

  /**
   * A refresh or a logout concerns one family, a change of status one employee, and a clean-up only rows that
   * have expired and are revoked: no session of anybody else ends.
   */
  lemma SessionsAreSeparate(ss: seq<State>, ops: seq<Op>, expiryDays: nat, i: nat, t: Token)
    requires IsRun(ss, ops, expiryDays) && i < |ops| && t in ss[i].tokens
    ensures ops[i].Refresh? || ops[i].Logout? ==>
              (ops[i].token in ss[i].tokens ==> ss[i].tokens[ops[i].token].family != ss[i].tokens[t].family) ==>
                Keeps(ss[i], ss[i + 1], t)
    ensures ops[i].UpdateStatus? || ops[i].ApproveOffboarding? ==>
              ss[i].tokens[t].employee != ops[i].employee ==> Keeps(ss[i], ss[i + 1], t)
    ensures ops[i].UpdateStatus? && ops[i].status != Offboarded ==> Keeps(ss[i], ss[i + 1], t)
    ensures ops[i].DeleteExpired? ==>
              (t !in ss[i + 1].tokens <==> ss[i].tokens[t].revoked && ss[i].tokens[t].expiresAt < ops[i].before)
              && (t in ss[i + 1].tokens ==> Keeps(ss[i], ss[i + 1], t))
  {
    RunKeepsInv(ss, ops, expiryDays, i);
    var op := ops[i];
  }

  // An issued family with no unrevoked token.
  ghost predicate Dead(s: State, family: Family) {
    family < s.nextFamily && forall t :: t in s.tokens && s.tokens[t].family == family ==> s.tokens[t].revoked
  }

  /** Replaying a revoked token and logging out with a live one both kill the whole family. */
  lemma ReplayAndLogoutKill(ss: seq<State>, ops: seq<Op>, expiryDays: nat, i: nat, t: Token)
    requires IsRun(ss, ops, expiryDays) && i < |ops| && t in ss[i].tokens
    requires ops[i] == Logout(t) || (ops[i].Refresh? && ops[i].token == t && ss[i].tokens[t].revoked)
    ensures (ops[i] == Logout(t) && !ss[i].tokens[t].revoked) || ops[i].Refresh? ==>
              Dead(ss[i + 1], ss[i].tokens[t].family)
    ensures ops[i] == Logout(t) && ss[i].tokens[t].revoked ==> ss[i + 1] == ss[i]
  {
    RunKeepsInv(ss, ops, expiryDays, i);
    if ops[i] == Logout(t) && ss[i].tokens[t].revoked {
      assert RevokeOne(ss[i].tokens, t) == ss[i].tokens;
    }
  }

  lemma DeadStaysDead(s: State, op: Op, expiryDays: nat, family: Family)
    requires Inv(s) && Dead(s, family)
    ensures Dead(Next(s, op, expiryDays), family)
  {
  }

  // A token keeps its row's family while it is stored, and once deleted never comes back.
  ghost predicate IssuedIn(s: State, t: Token, family: Family) {
    t < s.nextToken && (t in s.tokens ==> s.tokens[t].family == family)
  }

  lemma IssuedInStays(s: State, op: Op, expiryDays: nat, t: Token, family: Family)
    requires IssuedIn(s, t, family)
    ensures IssuedIn(Next(s, op, expiryDays), t, family)
  {
  }

  lemma {:induction false} IssuedInLater(ss: seq<State>, ops: seq<Op>, expiryDays: nat, i: nat, j: nat, t: Token,
                                         family: Family)
    requires IsRun(ss, ops, expiryDays) && i <= j < |ss| && IssuedIn(ss[i], t, family)
    ensures IssuedIn(ss[j], t, family)
  {
    if i < j {
      IssuedInLater(ss, ops, expiryDays, i, j - 1, t, family);
      var op := ops[j - 1];
      IssuedInStays(ss[j - 1], op, expiryDays, t, family);
    }
  }

  lemma {:induction false} DeadLater(ss: seq<State>, ops: seq<Op>, expiryDays: nat, i: nat, j: nat, family: Family)
    requires IsRun(ss, ops, expiryDays) && i <= j < |ss| && Dead(ss[i], family)
    ensures Dead(ss[j], family)
  {
    if i < j {
      DeadLater(ss, ops, expiryDays, i, j - 1, family);
      RunKeepsInv(ss, ops, expiryDays, j - 1);
      var op := ops[j - 1];
      DeadStaysDead(ss[j - 1], op, expiryDays, family);
    }
  }

  /**
   * Once a family has no unrevoked token, every token ever issued in it is refused for ever, whatever
   * logins, refreshes, reactivations and clean-ups follow.
   */
  lemma DeadFamilyIsRefusedForever(ss: seq<State>, ops: seq<Op>, expiryDays: nat, i: nat, k: nat, j: nat, t: Token,
                                   now: int)
    requires IsRun(ss, ops, expiryDays) && i <= j < |ss| && k <= j && t in ss[k].tokens
    requires Dead(ss[i], ss[k].tokens[t].family)
    ensures Refused(ss[j], Refresh(t, now)).Some?
    ensures Dead(ss[j], ss[k].tokens[t].family)
  {
    RunKeepsInv(ss, ops, expiryDays, k);
    IssuedInLater(ss, ops, expiryDays, k, j, t, ss[k].tokens[t].family);
    DeadLater(ss, ops, expiryDays, i, j, ss[k].tokens[t].family);
  }

  /** Offboarding by either route ends every session; reactivating the employee revives none of them. */
  lemma OffboardingEndsSessions(ss: seq<State>, ops: seq<Op>, expiryDays: nat, i: nat, j: nat, t: Token, now: int)
    requires IsRun(ss, ops, expiryDays) && i < j < |ss| && t in ss[i].tokens
    requires ops[i] == ApproveOffboarding(ss[i].tokens[t].employee)
             || ops[i] == UpdateStatus(ss[i].tokens[t].employee, Offboarded)
    ensures Refused(ss[j], Refresh(t, now)).Some?
  {
    RunKeepsInv(ss, ops, expiryDays, i);
    RunKeepsInv(ss, ops, expiryDays, i + 1);
    var family := ss[i].tokens[t].family;
    assert Dead(ss[i + 1], family);
    IssuedInLater(ss, ops, expiryDays, i, j, t, family);
    DeadLater(ss, ops, expiryDays, i + 1, j, family);
  }

  // Both routes offboard the employee.
  predicate Offboards(op: Op, e: EmployeeId) {
    op == ApproveOffboarding(e) || op == UpdateStatus(e, Offboarded)
  }

  /** An employee's status is what the last change of it said, and nobody else's changes with it. */
  lemma StatusFollows(ss: seq<State>, ops: seq<Op>, expiryDays: nat, i: nat, e: EmployeeId)
    requires IsRun(ss, ops, expiryDays) && i < |ops| && e in ss[i].employees
    ensures e in ss[i + 1].employees
    ensures ss[i + 1].employees[e] == if Offboards(ops[i], e) then Offboarded
                                      else if ops[i].UpdateStatus? && ops[i].employee == e then ops[i].status
                                      else ss[i].employees[e]
  {
    var op := ops[i];
  }

  /** Whoever is offboarded, by either route, cannot log in again until their status is changed back. */
  lemma {:induction false} OffboardedCannotLogIn(ss: seq<State>, ops: seq<Op>, expiryDays: nat, i: nat, j: nat,
                                                 e: EmployeeId, now: int)
    requires IsRun(ss, ops, expiryDays) && i < j < |ss| && e in ss[i].employees && Offboards(ops[i], e)
    requires forall k {:trigger ops[k]} :: i < k < j ==> !(ops[k].UpdateStatus? && ops[k].employee == e)
    ensures e in ss[j].employees && ss[j].employees[e] == Offboarded
    ensures Refused(ss[j], Login(e, now)) == Some(EmployeeInactive)
  {
    if i + 1 < j {
      OffboardedCannotLogIn(ss, ops, expiryDays, i, j - 1, e, now);
    }
    StatusFollows(ss, ops, expiryDays, j - 1, e);
  }
}

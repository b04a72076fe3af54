// Rotating refresh tokens: interleaved refreshes, logouts, password changes and blocks over one token table.
module RefreshTokens {
  import opened Common

  type Id = nat
  type User = string

  /** A stored token; `secret` identifies what the client holds, `revoked` stands for a revocation time. */
  datatype Row = Row(user: User, secret: nat, revoked: bool, expiresAt: int)

  datatype Outcome = Exchanged(issued: Id) | Refused

  /** Where one `refresh` call stands between its awaits. */
  datatype Pc = Verified | UserChecked | Found(row: Id) | Ended(outcome: Outcome)

  datatype Call = Call(user: User, secret: nat, pc: Pc)

  /** `usedBy` records which call exchanged a row, `logins` how many tokens were issued by signing in. */
  datatype World = World(rows: map<Id, Row>, blocked: set<User>, calls: seq<Call>, now: int, usedBy: map<Id, nat>,
      logins: nat)

  datatype Step =
    | Tick(now: int)
    | SignIn(id: Id, user: User, secret: nat, expiresAt: int)
    | Begin(user: User, secret: nat)
    | CheckUser(c: nat)
    | Lookup(c: nat)
    | Rotate(c: nat, id: Id, secret: nat, expiresAt: int)
    | Revoke(id: Id)
    | RevokeAll(user: User)
    | Block(user: User)
    | Unblock(user: User)

  predicate FreshToken(w: World, id: Id, secret: nat) {
    id !in w.rows && forall x :: x in w.rows ==> w.rows[x].secret != secret
  }

  /** A refresh can only present a token that was issued: its signature is checked first. */
  predicate Enabled(w: World, step: Step) {
    match step
    case Tick(now) => w.now <= now
    case SignIn(id, _, secret, _) => FreshToken(w, id, secret)
    case Begin(user, secret) => exists x :: x in w.rows && w.rows[x].user == user && w.rows[x].secret == secret
    case CheckUser(c) => c < |w.calls| && w.calls[c].pc == Verified
    case Lookup(c) => c < |w.calls| && w.calls[c].pc == UserChecked
    case Rotate(c, id, secret, _) => c < |w.calls| && w.calls[c].pc.Found? && w.calls[c].pc.row in w.rows
      && FreshToken(w, id, secret)
    case Revoke(id) => id in w.rows
    case RevokeAll(_) => true
    case Block(_) => true
    case Unblock(_) => true
  }

  predicate Live(w: World, id: Id) {
    id in w.rows && !w.rows[id].revoked
  }

  predicate Usable(w: World, id: Id, user: User, secret: nat) {
    Live(w, id) && w.rows[id].user == user && w.rows[id].secret == secret && w.rows[id].expiresAt > w.now
  }

  function SetPc(w: World, c: nat, pc: Pc): World
    requires c < |w.calls|
  {
    w.(calls := w.calls[c := w.calls[c].(pc := pc)])
  }

  function RevokeRow(rows: map<Id, Row>, id: Id): map<Id, Row>
    requires id in rows
  {
    rows[id := rows[id].(revoked := true)]
  }

  function RevokeRows(rows: map<Id, Row>, user: User): map<Id, Row> {
    map id | id in rows :: if rows[id].user == user then rows[id].(revoked := true) else rows[id]
  }

  ghost function Apply(w: World, step: Step): World
    requires Enabled(w, step)
  {
    match step
    case Tick(now) => w.(now := now)
    case SignIn(id, user, secret, expiresAt) =>
      w.(rows := w.rows[id := Row(user, secret, false, expiresAt)], logins := w.logins + 1)
    case Begin(user, secret) => w.(calls := w.calls + [Call(user, secret, Verified)])
    case CheckUser(c) => SetPc(w, c, if w.calls[c].user in w.blocked then Ended(Refused) else UserChecked)
    case Lookup(c) =>
      var k := w.calls[c];
      if exists id :: Usable(w, id, k.user, k.secret) then
        var id :| Usable(w, id, k.user, k.secret);
        SetPc(w, c, Found(id))
      else SetPc(w, c, Ended(Refused))
    case Rotate(c, id, secret, expiresAt) =>
      var spent := w.calls[c].pc.row;
      if w.rows[spent].revoked then SetPc(w, c, Ended(Refused))
      else SetPc(w.(rows := RevokeRow(w.rows, spent)[id := Row(w.calls[c].user, secret, false, expiresAt)],
                    usedBy := w.usedBy[spent := c]), c, Ended(Exchanged(id)))
    case Revoke(id) => w.(rows := RevokeRow(w.rows, id))
    case RevokeAll(user) => w.(rows := RevokeRows(w.rows, user))
    case Block(user) => w.(rows := RevokeRows(w.rows, user), blocked := w.blocked + {user})
    case Unblock(user) => w.(blocked := w.blocked - {user})
  }

  const INITIAL := World(map[], {}, [], 0, map[], 0)

  ghost function Run(w: World, steps: seq<Step>): Option<World>
    decreases |steps|
  {
    if steps == [] then Some(w)
    else if !Enabled(w, steps[0]) then None
    else Run(Apply(w, steps[0]), steps[1..])
  }

  // ---------- The invariant ----------

  predicate SecretsAreUnique(w: World) {
    forall x, y :: x in w.rows && y in w.rows && w.rows[x].secret == w.rows[y].secret ==> x == y
  }

  /** A row in `usedBy` is revoked and was exchanged by the call named there, and by no other. */
  predicate CallTellsTruth(w: World, c: nat)
    requires c < |w.calls|
  {
    var k := w.calls[c];
    && (exists x :: x in w.rows && w.rows[x].user == k.user && w.rows[x].secret == k.secret)
    && (k.pc.Found? ==> k.pc.row in w.rows && w.rows[k.pc.row].user == k.user && w.rows[k.pc.row].secret == k.secret)
    && (k.pc.Ended? && k.pc.outcome.Exchanged? ==>
        exists x :: x in w.usedBy && w.usedBy[x] == c && x in w.rows && w.rows[x].secret == k.secret)
  }

  predicate UsedIsRevoked(w: World) {
    forall x :: x in w.usedBy ==> x in w.rows && w.rows[x].revoked
  }

  ghost predicate Invariant(w: World) {
    && SecretsAreUnique(w) && UsedIsRevoked(w)
    && forall c :: 0 <= c < |w.calls| ==> CallTellsTruth(w, c)
  }

  /** Rows are only added and revoked; who used a row is never rewritten. */
  predicate Grows(w: World, t: World) {
    && (forall x :: x in w.rows ==>
        x in t.rows && t.rows[x].user == w.rows[x].user && t.rows[x].secret == w.rows[x].secret
                                    && (w.rows[x].revoked ==> t.rows[x].revoked))
    && (forall x :: x in w.usedBy ==> x in t.usedBy && t.usedBy[x] == w.usedBy[x])
  }

  lemma StepGrows(w: World, step: Step)
    requires Invariant(w) && Enabled(w, step)
    ensures Grows(w, Apply(w, step))
  {
  }

  lemma TruthCarries(w: World, t: World, c: nat)
    requires Grows(w, t) && c < |w.calls| && c < |t.calls| && t.calls[c] == w.calls[c] && CallTellsTruth(w, c)
    ensures CallTellsTruth(t, c)
  {
    var k := w.calls[c];
    var x :| x in w.rows && w.rows[x].user == k.user && w.rows[x].secret == k.secret;
    assert x in t.rows;
  }

  lemma StepKeepsTable(w: World, step: Step)
    requires Invariant(w) && Enabled(w, step)
    ensures SecretsAreUnique(Apply(w, step)) && UsedIsRevoked(Apply(w, step))
  {
  }

  lemma OwnStepTellsTruth(w: World, step: Step, c: nat)
    requires Invariant(w) && Enabled(w, step) && Grows(w, Apply(w, step)) && c < |w.calls|
    requires step == CheckUser(c) || step == Lookup(c) || (step.Rotate? && step.c == c)
    ensures CallTellsTruth(Apply(w, step), c)
  {
    var t, k := Apply(w, step), w.calls[c];
    assert CallTellsTruth(w, c);
    var x :| x in w.rows && w.rows[x].user == k.user && w.rows[x].secret == k.secret;
    assert x in t.rows && t.rows[x].user == k.user && t.rows[x].secret == k.secret;
    if step.Rotate? && t.calls[c].pc.outcome.Exchanged? {
      assert k.pc.row in t.usedBy && t.usedBy[k.pc.row] == c && t.rows[k.pc.row].secret == k.secret;
    }
  }

  lemma StepKeepsInvariant(w: World, step: Step)
    requires Invariant(w) && Enabled(w, step)
    ensures Invariant(Apply(w, step))
  {
    var t := Apply(w, step);
    StepGrows(w, step);
    StepKeepsTable(w, step);
    forall c | 0 <= c < |t.calls| ensures CallTellsTruth(t, c) {
      if c < |w.calls| && t.calls[c] == w.calls[c] {
        TruthCarries(w, t, c);
      } else if c < |w.calls| {
        OwnStepTellsTruth(w, step, c);
      }
    }
  }

  lemma {:induction false} RunKeepsInvariant(w: World, steps: seq<Step>)
    requires Invariant(w) && Run(w, steps).Some?
    ensures Invariant(Run(w, steps).value)
    decreases |steps|
  {
    if steps != [] {
      StepKeepsInvariant(w, steps[0]);
      RunKeepsInvariant(Apply(w, steps[0]), steps[1..]);
    }
  }

  // ---------- What every run guarantees ----------

  predicate DidExchange(w: World, c: nat) {
    c < |w.calls| && w.calls[c].pc.Ended? && w.calls[c].pc.outcome.Exchanged?
  }

  /** However many refreshes race with one token, at most one gets a new token for it. */
  lemma EachTokenIsExchangedOnce(steps: seq<Step>, c: nat, d: nat)
    requires Run(INITIAL, steps).Some?
    ensures var w := Run(INITIAL, steps).value;
            DidExchange(w, c) && DidExchange(w, d) && w.calls[c].secret == w.calls[d].secret ==> c == d
  {
    RunKeepsInvariant(INITIAL, steps);
    var w := Run(INITIAL, steps).value;
    if DidExchange(w, c) && DidExchange(w, d) && w.calls[c].secret == w.calls[d].secret {
      assert CallTellsTruth(w, c) && CallTellsTruth(w, d);
      var x :| x in w.usedBy && w.usedBy[x] == c && x in w.rows && w.rows[x].secret == w.calls[c].secret;
      var y :| y in w.usedBy && w.usedBy[y] == d && y in w.rows && w.rows[y].secret == w.calls[d].secret;
    }
  }

  function LiveIds(w: World): set<Id> {
    set id | id in w.rows && Live(w, id)
  }

  lemma RotationTradesOneForOne(w: World, step: Step)
    requires Invariant(w) && Enabled(w, step) && step.Rotate?
    ensures |LiveIds(Apply(w, step))| == |LiveIds(w)|
  {
    var t, spent, id := Apply(w, step), w.calls[step.c].pc.row, step.id;
    if w.rows[spent].revoked {
      assert t.rows == w.rows;
      assert LiveIds(t) == LiveIds(w);
    } else {
      assert spent in LiveIds(w) && id !in LiveIds(w);
      assert LiveIds(t) == LiveIds(w) - {spent} + {id};
    }
  }

  /** A refresh never changes the number of live tokens; nothing but a sign-in adds to it. */
  lemma OnlySignInAddsTokens(w: World, step: Step)
    requires Invariant(w) && Enabled(w, step)
    ensures |LiveIds(Apply(w, step))| <= |LiveIds(w)| + if step.SignIn? then 1 else 0
    ensures step.Rotate? ==> |LiveIds(Apply(w, step))| == |LiveIds(w)|
  {
    if step.Rotate? {
      RotationTradesOneForOne(w, step);
    } else if step.SignIn? {
      assert LiveIds(Apply(w, step)) == LiveIds(w) + {step.id};
    } else {
      QuietStepsAddNone(w, step);
      SubsetSize(LiveIds(Apply(w, step)), LiveIds(w));
    }
  }

  lemma QuietStepsAddNone(w: World, step: Step)
    requires Invariant(w) && Enabled(w, step) && !step.Rotate? && !step.SignIn?
    ensures LiveIds(Apply(w, step)) <= LiveIds(w)
  {
    StepGrows(w, step);
    assert Apply(w, step).rows.Keys == w.rows.Keys;
  }

  lemma {:induction false} LiveTokensWithinLogins(w: World, steps: seq<Step>)
    requires Invariant(w) && Run(w, steps).Some? && |LiveIds(w)| <= w.logins
    ensures |LiveIds(Run(w, steps).value)| <= Run(w, steps).value.logins
    decreases |steps|
  {
    if steps != [] {
      OnlySignInAddsTokens(w, steps[0]);
      StepKeepsInvariant(w, steps[0]);
      LiveTokensWithinLogins(Apply(w, steps[0]), steps[1..]);
    }
  }

  function SignIns(steps: seq<Step>): nat {
    if steps == [] then 0 else (if steps[0].SignIn? then 1 else 0) + SignIns(steps[1..])
  }

  lemma {:induction false} LoginsAreSignIns(w: World, steps: seq<Step>)
    requires Run(w, steps).Some?
    ensures Run(w, steps).value.logins == w.logins + SignIns(steps)
    decreases |steps|
  {
    if steps != [] { LoginsAreSignIns(Apply(w, steps[0]), steps[1..]); }
  }

  /** However refreshes, revocations and blocks interleave, tokens in force never outnumber the sign-ins so far. */
  lemma TokensWithinSignIns(steps: seq<Step>)
    requires Run(INITIAL, steps).Some?
    ensures var rows := Run(INITIAL, steps).value.rows;
            |set x | x in rows && !rows[x].revoked| <= SignIns(steps)
  {
    assert LiveIds(INITIAL) == {};
    LiveTokensWithinLogins(INITIAL, steps);
    LoginsAreSignIns(INITIAL, steps);
    var w := Run(INITIAL, steps).value;
    assert LiveIds(w) == set x | x in w.rows && !w.rows[x].revoked;
  }

  /** Every row a call's token could match is revoked, and the call has not succeeded. */
  ghost predicate Doomed(w: World, c: nat) {
    && c < |w.calls| && !DidExchange(w, c)
    && forall x :: x in w.rows && w.rows[x].secret == w.calls[c].secret ==> w.rows[x].revoked
  }

  lemma DoomedStaysDoomed(w: World, step: Step, c: nat)
    requires Invariant(w) && Enabled(w, step) && Doomed(w, c)
    ensures Doomed(Apply(w, step), c) && Apply(w, step).calls[c].user == w.calls[c].user
  {
    assert CallTellsTruth(w, c);
    var t, k := Apply(w, step), w.calls[c];
    var held :| held in w.rows && w.rows[held].user == k.user && w.rows[held].secret == k.secret;
    StepGrows(w, step);
    assert forall x :: x in t.rows && t.rows[x].secret == k.secret ==> x in w.rows;
  }

  lemma {:induction false} DoomedForever(w: World, steps: seq<Step>, c: nat)
    requires Invariant(w) && Doomed(w, c) && Run(w, steps).Some?
    ensures Doomed(Run(w, steps).value, c)
    decreases |steps|
  {
    if steps != [] {
      DoomedStaysDoomed(w, steps[0], c);
      StepKeepsInvariant(w, steps[0]);
      DoomedForever(Apply(w, steps[0]), steps[1..], c);
    }
  }

  /**
   * Once a password change, a reset or a block has revoked a user's tokens, no refresh of that user begun before
   * it and not yet finished can ever issue a token, however it interleaves with the rest.
   */
  lemma RevocationIsFinal(before: seq<Step>, cut: Step, after: seq<Step>, c: nat)
    requires Run(INITIAL, before).Some? && (cut.RevokeAll? || cut.Block?)
    requires Run(Apply(Run(INITIAL, before).value, cut), after).Some?
    requires var w := Run(INITIAL, before).value; c < |w.calls| && w.calls[c].user == cut.user && !DidExchange(w, c)
    ensures !DidExchange(Run(Apply(Run(INITIAL, before).value, cut), after).value, c)
  {
    RunKeepsInvariant(INITIAL, before);
    var w := Run(INITIAL, before).value;
    assert CallTellsTruth(w, c);
    StepKeepsInvariant(w, cut);
    assert Doomed(Apply(w, cut), c);
    DoomedForever(Apply(w, cut), after, c);
  }

  // ---------- Which refreshes succeed ----------

  /** A live token with this secret that has not run out. */
  ghost predicate HasToken(w: World, user: User, secret: nat) {
    exists x :: x in w.rows && w.rows[x].user == user && w.rows[x].secret == secret && !w.rows[x].revoked
                && w.now < w.rows[x].expiresAt
  }

  lemma HasTokenIff(w: World, user: User, secret: nat)
    ensures HasToken(w, user, secret) <==> exists x :: Usable(w, x, user, secret)
  {
    if x :| Usable(w, x, user, secret) { assert x in w.rows; }
    if x :| x in w.rows && w.rows[x].user == user && w.rows[x].secret == secret && !w.rows[x].revoked
            && w.now < w.rows[x].expiresAt {
      assert Usable(w, x, user, secret);
    }
  }

  /** The checks a refresh passes: its user is not blocked, and its token is live and has not run out. */
  lemma ChecksPassIff(w: World, c: nat)
    ensures Enabled(w, CheckUser(c)) ==>
              Apply(w, CheckUser(c)).calls[c].pc == if w.calls[c].user in w.blocked then Ended(Refused) else UserChecked
    ensures Enabled(w, Lookup(c)) ==>
              var known := HasToken(w, w.calls[c].user, w.calls[c].secret);
              && (Apply(w, Lookup(c)).calls[c].pc.Found? <==> known)
              && (!known ==> Apply(w, Lookup(c)).calls[c].pc == Ended(Refused))
  {
    if Enabled(w, Lookup(c)) { HasTokenIff(w, w.calls[c].user, w.calls[c].secret); }
  }

  /** The world after a refresh that nothing interrupts. */
  ghost function Refreshed(w: World, user: User, secret: nat, id: Id, newSecret: nat, expiresAt: int): World
    requires Enabled(w, Begin(user, secret)) && FreshToken(w, id, newSecret)
  {
    var c := |w.calls|;
    var begun := Apply(w, Begin(user, secret));
    var checked := Apply(begun, CheckUser(c));
    if checked.calls[c].pc != UserChecked then checked
    else
      var found := Apply(checked, Lookup(c));
      var rotate := Rotate(c, id, newSecret, expiresAt);
      if Enabled(found, rotate) then Apply(found, rotate) else found
  }

  /**
   * A refresh that nothing interrupts exchanges its token exactly if the user is not blocked and the token is live and
   * has not run out: the token is then revoked, and the new one stored with its secret and its deadline. Otherwise no
   * token changes.
   */
  lemma RefreshSucceedsIff(w: World, user: User, secret: nat, id: Id, newSecret: nat, expiresAt: int)
    requires Invariant(w) && Enabled(w, Begin(user, secret)) && FreshToken(w, id, newSecret)
    ensures var t, c := Refreshed(w, user, secret, id, newSecret, expiresAt), |w.calls|;
            && (t.calls[c].pc == Ended(Exchanged(id)) <==> user !in w.blocked && HasToken(w, user, secret))
            && (t.calls[c].pc == Ended(Exchanged(id)) ==>
                  exists x :: x in w.rows && w.rows[x].secret == secret
                              && t.rows == w.rows[x := w.rows[x].(revoked := true)]
                                            [id := Row(user, newSecret, false, expiresAt)])
            && (t.calls[c].pc != Ended(Exchanged(id)) ==> t.rows == w.rows && t.calls[c].pc == Ended(Refused))
  {
    var c := |w.calls|;
    var begun := Apply(w, Begin(user, secret));
    var checked := Apply(begun, CheckUser(c));
    ChecksPassIff(begun, c);
    HasTokenIff(w, user, secret);
    if checked.calls[c].pc == UserChecked {
      ChecksPassIff(checked, c);
      HasTokenIff(checked, user, secret);
      assert HasToken(checked, user, secret) <==> HasToken(w, user, secret);
    }
  }

  /** A call checks its user, looks its token up and exchanges it, once each; a check can only end it refused. */
  ghost predicate Advances(w: World, before: Call, after: Call) {
    && after.user == before.user && after.secret == before.secret
    && match before.pc
       case Verified => after.pc == (if before.user in w.blocked then Ended(Refused) else UserChecked)
       case UserChecked =>
         if HasToken(w, before.user, before.secret)
         then after.pc.Found? && Usable(w, after.pc.row, before.user, before.secret)
         else after.pc == Ended(Refused)
       case Found(x) => after.pc.Ended? && (after.pc == Ended(Refused) <==> x in w.rows && w.rows[x].revoked)
       case Ended(_) => false
  }

  lemma CallsAdvance(w: World, step: Step, c: nat)
    requires Enabled(w, step) && c < |w.calls|
    ensures var t := Apply(w, step);
            && (t.calls[c] == w.calls[c] || Advances(w, w.calls[c], t.calls[c]))
            && ((step == CheckUser(c) || step == Lookup(c) || (step.Rotate? && step.c == c)) ==>
                  Advances(w, w.calls[c], t.calls[c]))
  {
    HasTokenIff(w, w.calls[c].user, w.calls[c].secret);
  }

  /** Blocking and unblocking, and nothing else, decide who is blocked. */
  lemma BlockedIff(w: World, step: Step, user: User)
    requires Enabled(w, step)
    ensures user in Apply(w, step).blocked <==> step == Block(user) || (user in w.blocked && step != Unblock(user))
  {
  }

  // ---------- The table ----------

  class TokenTable {
    var rows: map<Id, Row>

    constructor ()
      ensures rows == map[]
    {
      rows := map[];
    }

    /** The rotation transaction: revoke if still unrevoked, then store the successor; otherwise change nothing. */
    method RotateToken(spent: Id, id: Id, user: User, secret: nat, expiresAt: int) returns (outcome: Outcome)
      requires spent in rows && id !in rows
      modifies this
      ensures outcome == if old(rows)[spent].revoked then Refused else Exchanged(id)
      ensures rows == if old(rows)[spent].revoked then old(rows)
                      else RevokeRow(old(rows), spent)[id := Row(user, secret, false, expiresAt)]
    {
      if rows[spent].revoked { return Refused; }
      rows := rows[spent := rows[spent].(revoked := true)];
      rows := rows[id := Row(user, secret, false, expiresAt)];
      return Exchanged(id);
    }
  }
}

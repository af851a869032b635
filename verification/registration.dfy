/**
 Resident registration: pending requests, their expiry, and accounts created by approval.
 Times are seconds.
 */
module Registration {
  import opened Wrappers
  import opened Phones
  import Integrity
  import Texts

  datatype Status = Pending | Approved | Rejected | Expired

  /** `phone` is in international form; `passwordHash` is "" once the request is closed; `reason` is that of a rejection. */
  datatype Request = Request(
    phone: string,
    email: Option<string>,
    status: Status,
    passwordHash: string,
    decidedAt: Option<int>,
    expiresAt: int,
    reason: string)

  datatype User = User(phone: string, email: Option<string>, passwordHash: string)

  datatype State = State(now: int, requests: seq<Request>, users: seq<User>)

  datatype Error = RegistrationConflict | ReasonRequired

  type Outcome = Result<State, Error>

  const INITIAL := State(0, [], [])
  const REQUEST_LIFETIME := 30 * 24 * 3600

  /** Trimmed and case-folded; blank addresses count as none. */
  function CleanEmail(raw: Option<string>): Option<string> {
    if raw.None? || Texts.Blank(raw.value) then None else Some(Integrity.Lower(Texts.Strip(raw.value)))
  }

  predicate SameAddress(a: Option<string>, b: Option<string>) {
    a.Some? && b.Some? && Integrity.Lower(a.value) == Integrity.Lower(b.value)
  }

  predicate Overdue(r: Request, now: int) { r.status == Pending && r.expiresAt <= now }

  function Expire(r: Request, now: int): Request {
    r.(status := Expired, passwordHash := "", decidedAt := Some(now))
  }

  /** The overdue requests among those chosen expire. */
  function ExpireChosen(requests: seq<Request>, now: int, chosen: set<nat>): (r: seq<Request>)
    ensures |r| == |requests|
    ensures forall i :: 0 <= i < |r| ==> r[i] == if i in chosen && Overdue(requests[i], now) then Expire(requests[i], now) else requests[i]
  {
    seq(|requests|, i requires 0 <= i < |requests| =>
      if i in chosen && Overdue(requests[i], now) then Expire(requests[i], now) else requests[i])
  }

  predicate SameContact(r: Request, phone: string, email: Option<string>) {
    r.phone == phone || (email.Some? && r.email == email)
  }

  predicate PendingContact(requests: seq<Request>, phone: string, email: Option<string>) {
    exists i :: 0 <= i < |requests| && requests[i].status == Pending && SameContact(requests[i], phone, email)
  }

  predicate HasAccount(users: seq<User>, phone: string, email: Option<string>) {
    exists i :: 0 <= i < |users| && (users[i].phone == phone || SameAddress(users[i].email, email))
  }

  function Seen(users: seq<User>, seen: nat): seq<User> { if seen < |users| then users[..seen] else users }

  function Matching(requests: seq<Request>, phone: string, email: Option<string>): set<nat> {
    set i | 0 <= i < |requests| && SameContact(requests[i], phone, email)
  }

  /**
   Submit: expire what blocks the contact and a batch of others, then insert unless the contact is taken.
   A conflict rolls everything back. `batch` is whatever the bounded clean-up picked. Accounts are looked up by a
   query of its own, which sees the first `seen` of them; approvals may commit between it and the insertion, which
   unique columns guard against other pending requests only.
   */
  function Submit(digit: char -> bool, s: State, rawPhone: string, rawEmail: Option<string>, passwordHash: string,
                  unitExists: bool, batch: set<nat>, seen: nat): Outcome
  {
    match Normalize(digit, rawPhone)
    case None => Err(RegistrationConflict)
    case Some(local) =>
      var email := CleanEmail(rawEmail);
      var phone := International(local);
      if !unitExists then Err(RegistrationConflict)
      else
        var requests := ExpireChosen(s.requests, s.now, Matching(s.requests, phone, email) + batch);
        if HasAccount(Seen(s.users, seen), local, email) || PendingContact(requests, phone, email) then Err(RegistrationConflict)
        else Ok(s.(requests := requests + [Request(phone, email, Pending, passwordHash, None, s.now + REQUEST_LIFETIME, "")]))
  }

  /** The account an approval creates, with its phone in canonical local form and the request's password. */
  function AccountOf(digit: char -> bool, r: Request): User {
    var local := Normalize(digit, r.phone);
    User(if local.Some? then local.value else r.phone, r.email, r.passwordHash)
  }

  /** Unique columns of the user table. */
  predicate UserClash(users: seq<User>, u: User) {
    exists i :: 0 <= i < |users| && (users[i].phone == u.phone || (u.email.Some? && users[i].email == u.email))
  }

  /** Approval of an overdue request expires it and still reports a conflict. */
  function Approve(digit: char -> bool, s: State, i: nat): (State, bool) {
    if i >= |s.requests| || s.requests[i].status != Pending then (s, false)
    else if s.requests[i].expiresAt <= s.now then (s.(requests := s.requests[i := Expire(s.requests[i], s.now)]), false)
    else
      var u := AccountOf(digit, s.requests[i]);
      if UserClash(s.users, u) then (s, false)
      else (s.(users := s.users + [u],
               requests := s.requests[i := s.requests[i].(status := Approved, passwordHash := "", decidedAt := Some(s.now))]), true)
  }

  /** A rejection needs a reason; an overdue request expires instead and a conflict is reported. */
  function Reject(s: State, i: nat, reason: string): (State, Result<(), Error>) {
    if Texts.Blank(reason) then (s, Err(ReasonRequired))
    else if i >= |s.requests| || s.requests[i].status != Pending then (s, Err(RegistrationConflict))
    else if s.requests[i].expiresAt <= s.now then
      (s.(requests := s.requests[i := Expire(s.requests[i], s.now)]), Err(RegistrationConflict))
    else
      var closed := s.requests[i].(status := Rejected, passwordHash := "", reason := Texts.Strip(reason), decidedAt := Some(s.now));
      (s.(requests := s.requests[i := closed]), Ok(()))
  }

  datatype Step =
    | Tick(elapsed: nat)
    | SubmitStep(phone: string, email: Option<string>, passwordHash: string, unitExists: bool, batch: set<nat>, seen: nat)
    | ApproveStep(request: nat)
    | RejectStep(request: nat, reason: string)
    | ExpireStep(batch: set<nat>)

  function Next(digit: char -> bool, s: State, step: Step): State {
    match step
    case Tick(elapsed) => s.(now := s.now + elapsed)
    case SubmitStep(phone, email, hash, unit, batch, seen) =>
      (match Submit(digit, s, phone, email, hash, unit, batch, seen)
       case Ok(t) => t
       case Err(_) => s)
    case ApproveStep(i) => Approve(digit, s, i).0
    case RejectStep(i, reason) => Reject(s, i, reason).0
    case ExpireStep(batch) => s.(requests := ExpireChosen(s.requests, s.now, batch))
  }

  function Run(digit: char -> bool, s: State, steps: seq<Step>): State {
    if steps == [] then s else Next(digit, Run(digit, s, steps[..|steps| - 1]), steps[|steps| - 1])
  }

  /** The accounts a submission saw, and those there were when it inserted its request. */
  datatype Window = Window(seen: nat, size: nat)

  /** The window of the request a step inserts, if it does. */
  function NewWindow(digit: char -> bool, s: State, step: Step): seq<Window> {
    if step.SubmitStep?
       && Submit(digit, s, step.phone, step.email, step.passwordHash, step.unitExists, step.batch, step.seen).Ok?
    then [Window(|Seen(s.users, step.seen)|, |s.users|)] else []
  }

  /** The windows of a run's requests. */
  function Windows(digit: char -> bool, steps: seq<Step>): seq<Window> {
    if steps == [] then []
    else
      var init := steps[..|steps| - 1];
      Windows(digit, init) + NewWindow(digit, Run(digit, INITIAL, init), steps[|steps| - 1])
  }

  // ---------------------------------------------------------------- the invariant

  /** The phone is the international form of a canonical number; the address is clean. */
  ghost predicate RequestOk(digit: char -> bool, r: Request) {
    && (exists p :: Canonical(digit, p) && r.phone == International(p))
    && (r.email.Some? ==> Integrity.Lower(r.email.value) == r.email.value)
    && (r.status != Pending ==> r.passwordHash == "")
    && (r.status == Rejected <==> r.reason != "")
  }

  ghost predicate Apart(a: Request, b: Request) {
    a.phone != b.phone && (a.email.Some? ==> a.email != b.email)
  }

  /** An account uses neither the phone nor the address of the request. */
  ghost predicate NoClash(digit: char -> bool, r: Request, u: User) {
    Normalize(digit, r.phone) != Some(u.phone) && !SameAddress(u.email, r.email)
  }

  ghost predicate Missed(w: Window, k: nat) { w.seen <= k < w.size }

  ghost predicate Inv(digit: char -> bool, s: State, ws: seq<Window>) {
    && |ws| == |s.requests|
    && (forall i :: 0 <= i < |ws| ==> ws[i].seen <= ws[i].size <= |s.users|)
    && (forall i :: 0 <= i < |s.requests| ==> RequestOk(digit, s.requests[i]))
    && (forall i, j :: 0 <= i < j < |s.requests| && s.requests[i].status == Pending && s.requests[j].status == Pending ==>
          Apart(s.requests[i], s.requests[j]))
    && (forall i, k :: 0 <= i < |s.requests| && s.requests[i].status == Pending && 0 <= k < |s.users| && !Missed(ws[i], k) ==>
          NoClash(digit, s.requests[i], s.users[k]))
  }

  /** Closing requests, for any reason, disturbs nothing. */
  lemma ClosingKeeps(digit: char -> bool, s: State, t: State, ws: seq<Window>)
    requires Inv(digit, s, ws) && |t.requests| == |s.requests| && t.users == s.users
    requires forall i :: 0 <= i < |s.requests| ==>
               || t.requests[i] == s.requests[i]
               || (t.requests[i].phone == s.requests[i].phone && t.requests[i].email == s.requests[i].email
                   && t.requests[i].status != Pending && t.requests[i].passwordHash == ""
                   && (t.requests[i].status == Rejected <==> t.requests[i].reason != ""))
    ensures Inv(digit, t, ws)
  {
    hide NoClash, Missed;
    forall i | 0 <= i < |t.requests| ensures RequestOk(digit, t.requests[i]) { assert RequestOk(digit, s.requests[i]); }
  }

  lemma CleanIsLower(raw: Option<string>)
    ensures CleanEmail(raw).Some? ==> Integrity.Lower(CleanEmail(raw).value) == CleanEmail(raw).value
  {
  }

  /** A request that was let in is apart from every pending one and from every account its check saw. */
  lemma LetInIsApart(digit: char -> bool, s: State, seen: nat, r: Request, local: string)
    requires DigitLaws(digit) && Canonical(digit, local) && r.phone == International(local)
    requires !HasAccount(Seen(s.users, seen), local, r.email) && !PendingContact(s.requests, r.phone, r.email)
    ensures forall i :: 0 <= i < |s.requests| && s.requests[i].status == Pending ==> Apart(s.requests[i], r)
    ensures forall k :: 0 <= k < |Seen(s.users, seen)| ==> NoClash(digit, r, s.users[k])
  {
    forall k | 0 <= k < |Seen(s.users, seen)| ensures NoClash(digit, r, s.users[k]) { NotSeen(digit, s.users, seen, r, local, k); }
    hide NoClash, HasAccount, Seen, Normalize, International, Canonical, DigitLaws;
    forall i | 0 <= i < |s.requests| && s.requests[i].status == Pending ensures Apart(s.requests[i], r) {
      assert !SameContact(s.requests[i], r.phone, r.email);
    }
  }

  lemma NotSeen(digit: char -> bool, users: seq<User>, seen: nat, r: Request, local: string, k: nat)
    requires DigitLaws(digit) && Canonical(digit, local) && r.phone == International(local)
    requires !HasAccount(Seen(users, seen), local, r.email) && k < |Seen(users, seen)|
    ensures NoClash(digit, r, users[k])
  {
    InternationalRoundTrip(digit, local);
    hide Normalize, International, Canonical, Integrity.Lower, SameAddress, DigitLaws;
    assert Seen(users, seen)[k] == users[k];
  }

  lemma InsertKeeps(digit: char -> bool, s: State, ws: seq<Window>, seen: nat, r: Request, local: string)
    requires DigitLaws(digit) && Inv(digit, s, ws)
    requires Canonical(digit, local) && r.phone == International(local) && r.status == Pending && r.reason == ""
    requires r.email.Some? ==> Integrity.Lower(r.email.value) == r.email.value
    requires !HasAccount(Seen(s.users, seen), local, r.email) && !PendingContact(s.requests, r.phone, r.email)
    ensures Inv(digit, s.(requests := s.requests + [r]), ws + [Window(|Seen(s.users, seen)|, |s.users|)])
  {
    LetInIsApart(digit, s, seen, r, local);
    assert RequestOk(digit, r);
    hide RequestOk, NoClash, Apart, HasAccount, PendingContact, International, Canonical, Integrity.Lower, DigitLaws;
  }

  lemma SubmitKeeps(digit: char -> bool, s: State, ws: seq<Window>, phone: string, email: Option<string>, hash: string, unit: bool,
                    batch: set<nat>, seen: nat)
    requires DigitLaws(digit) && Inv(digit, s, ws) && Submit(digit, s, phone, email, hash, unit, batch, seen).Ok?
    ensures Inv(digit, Submit(digit, s, phone, email, hash, unit, batch, seen).value, ws + [Window(|Seen(s.users, seen)|, |s.users|)])
  {
    hide Normalize, International, CleanEmail, PendingContact, HasAccount, Matching, Integrity.Lower;
    var local := Normalize(digit, phone).value;
    var clean := CleanEmail(email);
    var key := International(local);
    CleanIsLower(email);
    var u := s.(requests := ExpireChosen(s.requests, s.now, Matching(s.requests, key, clean) + batch));
    ClosingKeeps(digit, s, u, ws);
    InsertKeeps(digit, u, ws, seen, Request(key, clean, Pending, hash, None, s.now + REQUEST_LIFETIME, ""), local);
  }

  /** The account of one pending request clashes with no other pending request. */
  lemma AccountApart(digit: char -> bool, r: Request, other: Request)
    requires DigitLaws(digit) && RequestOk(digit, r) && RequestOk(digit, other) && Apart(r, other)
    ensures NoClash(digit, other, AccountOf(digit, r))
  {
    var p :| Canonical(digit, p) && r.phone == International(p);
    var q :| Canonical(digit, q) && other.phone == International(q);
    InternationalRoundTrip(digit, p);
    InternationalRoundTrip(digit, q);
  }

  lemma ApartBothWays(a: Request, b: Request)
    requires Apart(a, b)
    ensures Apart(b, a)
  {
  }

  lemma NoReasonYet(digit: char -> bool, s: State, ws: seq<Window>, i: nat)
    requires Inv(digit, s, ws) && i < |s.requests| && s.requests[i].status == Pending
    ensures s.requests[i].reason == ""
  {
    assert RequestOk(digit, s.requests[i]);
  }

  lemma AccountAdded(digit: char -> bool, s: State, ws: seq<Window>, u: User)
    requires Inv(digit, s, ws)
    requires forall j :: 0 <= j < |s.requests| && s.requests[j].status == Pending ==> NoClash(digit, s.requests[j], u)
    ensures Inv(digit, s.(users := s.users + [u]), ws)
  {
    hide NoClash, RequestOk, Apart;
  }

  lemma ApproveKeeps(digit: char -> bool, s: State, ws: seq<Window>, i: nat)
    requires DigitLaws(digit) && Inv(digit, s, ws)
    ensures Inv(digit, Approve(digit, s, i).0, ws)
  {
    var t := Approve(digit, s, i).0;
    hide NoClash, RequestOk, AccountOf, UserClash, DigitLaws;
    var u := s.(requests := t.requests);
    if i < |s.requests| && s.requests[i].status == Pending { NoReasonYet(digit, s, ws, i); }
    ClosingKeeps(digit, s, u, ws);
    if Approve(digit, s, i).1 {
      forall j | 0 <= j < |u.requests| && u.requests[j].status == Pending
        ensures NoClash(digit, u.requests[j], AccountOf(digit, s.requests[i]))
      {
        PendingApart(digit, s, ws, i, j);
        AccountApart(digit, s.requests[i], s.requests[j]);
      }
      hide Inv;
      AccountAdded(digit, u, ws, AccountOf(digit, s.requests[i]));
    }
  }

  lemma PendingApart(digit: char -> bool, s: State, ws: seq<Window>, i: nat, j: nat)
    requires Inv(digit, s, ws) && i < |s.requests| && j < |s.requests| && i != j
    requires s.requests[i].status == Pending && s.requests[j].status == Pending
    ensures Apart(s.requests[i], s.requests[j]) && RequestOk(digit, s.requests[i]) && RequestOk(digit, s.requests[j])
  {
    hide NoClash, RequestOk;
    if j < i { ApartBothWays(s.requests[j], s.requests[i]); }
  }

  lemma StepKeeps(digit: char -> bool, s: State, ws: seq<Window>, step: Step)
    requires DigitLaws(digit) && Inv(digit, s, ws)
    ensures Inv(digit, Next(digit, s, step), ws + NewWindow(digit, s, step))
  {
    hide Inv, DigitLaws, Submit, Seen;
    assert ws + [] == ws;
    match step {
      case SubmitStep(phone, email, hash, unit, batch, seen) =>
        if Submit(digit, s, phone, email, hash, unit, batch, seen).Ok? { SubmitKeeps(digit, s, ws, phone, email, hash, unit, batch, seen); }
      case ApproveStep(i) => ApproveKeeps(digit, s, ws, i);
      case _ =>
        ClosesOnly(digit, s, ws, step);
        ClosingKeeps(digit, s, Next(digit, s, step), ws);
    }
  }

  lemma ClosesOnly(digit: char -> bool, s: State, ws: seq<Window>, step: Step)
    requires Inv(digit, s, ws) && !step.SubmitStep? && !step.ApproveStep?
    ensures var t := Next(digit, s, step);
            && |t.requests| == |s.requests| && t.users == s.users
            && forall i :: 0 <= i < |s.requests| ==>
                 || t.requests[i] == s.requests[i]
                 || (t.requests[i].phone == s.requests[i].phone && t.requests[i].email == s.requests[i].email
                     && t.requests[i].status != Pending && t.requests[i].passwordHash == ""
                     && (t.requests[i].status == Rejected <==> t.requests[i].reason != ""))
  {
    hide NoClash, Apart;
    forall i | 0 <= i < |s.requests| ensures s.requests[i].status == Pending ==> s.requests[i].reason == "" {
      assert RequestOk(digit, s.requests[i]);
    }
  }

  lemma {:induction false} RunKeeps(digit: char -> bool, steps: seq<Step>)
    requires DigitLaws(digit)
    ensures Inv(digit, Run(digit, INITIAL, steps), Windows(digit, steps))
  {
    hide DigitLaws, Next, NewWindow;
    if steps != [] {
      var init := steps[..|steps| - 1];
      RunKeeps(digit, init);
      StepKeeps(digit, Run(digit, INITIAL, init), Windows(digit, init), steps[|steps| - 1]);
    }
  }

  /**
   In every reachable state: every closed request has lost its password hash, and has a reason exactly if it was
   rejected; pending requests have distinct phones and addresses; and none of these belongs to an account, unless
   the account was created after the submission had looked for one and before it inserted its request.
   */
  lemma PendingContactsAreFree(digit: char -> bool, steps: seq<Step>)
    requires DigitLaws(digit)
    ensures var s, ws := Run(digit, INITIAL, steps), Windows(digit, steps);
            && |ws| == |s.requests|
            && (forall i :: 0 <= i < |s.requests| && s.requests[i].status != Pending ==> s.requests[i].passwordHash == "")
            && (forall i :: 0 <= i < |s.requests| ==> (s.requests[i].status == Rejected <==> s.requests[i].reason != ""))
            && (forall i, j ::
                  (0 <= i < |s.requests| && 0 <= j < |s.requests| && i != j
                   && s.requests[i].status == Pending && s.requests[j].status == Pending) ==> Apart(s.requests[i], s.requests[j]))
            && (forall i, k :: 0 <= i < |s.requests| && s.requests[i].status == Pending && 0 <= k < |s.users| && !Missed(ws[i], k) ==>
                  NoClash(digit, s.requests[i], s.users[k]))
  {
    RunKeeps(digit, steps);
    var s := Run(digit, INITIAL, steps);
    hide Run, Windows, NoClash, Missed;
    forall i | 0 <= i < |s.requests|
      ensures s.requests[i].status != Pending ==> s.requests[i].passwordHash == ""
      ensures s.requests[i].status == Rejected <==> s.requests[i].reason != ""
    {
      assert RequestOk(digit, s.requests[i]);
    }
    forall i, j | 0 <= i < |s.requests| && 0 <= j < |s.requests| && i != j && s.requests[i].status == Pending && s.requests[j].status == Pending
      ensures Apart(s.requests[i], s.requests[j])
    {
      if j < i { ApartBothWays(s.requests[j], s.requests[i]); }
    }
  }

  /** Account k has the phone or the address of the account this request would get. */
  predicate Takes(digit: char -> bool, u: User, r: Request) {
    u.phone == AccountOf(digit, r).phone || (AccountOf(digit, r).email.Some? && u.email == AccountOf(digit, r).email)
  }

  lemma FreeIsNotTaken(digit: char -> bool, r: Request, u: User)
    requires DigitLaws(digit) && RequestOk(digit, r) && NoClash(digit, r, u)
    ensures !Takes(digit, u, r)
  {
    var p :| Canonical(digit, p) && r.phone == International(p);
    InternationalRoundTrip(digit, p);
    hide Normalize, Canonical, International, Integrity.Lower;
  }

  /** Approving a pending request in time conflicts exactly when an account its submission missed has taken its contact. */
  lemma ApprovalConflictsExactly(digit: char -> bool, steps: seq<Step>, i: nat)
    requires DigitLaws(digit)
    requires var s := Run(digit, INITIAL, steps); i < |s.requests| && s.requests[i].status == Pending && s.requests[i].expiresAt > s.now
    ensures var s, ws := Run(digit, INITIAL, steps), Windows(digit, steps);
            && i < |ws|
            && (!Approve(digit, s, i).1 <==>
                exists k :: 0 <= k < |s.users| && Missed(ws[i], k) && Takes(digit, s.users[k], s.requests[i]))
  {
    RunKeeps(digit, steps);
    hide Run, Windows, AccountOf, RequestOk, NoClash, Missed, Apart, UserClash, DigitLaws;
    var s, ws := Run(digit, INITIAL, steps), Windows(digit, steps);
    forall k | 0 <= k < |s.users| && !Missed(ws[i], k) ensures !Takes(digit, s.users[k], s.requests[i]) {
      FreeIsNotTaken(digit, s.requests[i], s.users[k]);
    }
    ClashMeans(digit, s.users, s.requests[i]);
  }

  lemma ClashMeans(digit: char -> bool, users: seq<User>, r: Request)
    ensures UserClash(users, AccountOf(digit, r)) <==> exists k :: 0 <= k < |users| && Takes(digit, users[k], r)
  {
    hide AccountOf;
  }

  /** No account was created between any submission's look and its insertion. */
  ghost predicate Undisturbed(digit: char -> bool, steps: seq<Step>) {
    forall i :: 0 <= i < |Windows(digit, steps)| ==> Windows(digit, steps)[i].seen == Windows(digit, steps)[i].size
  }

  /** Then approving a pending request in time always succeeds. */
  lemma ApprovalNeverConflicts(digit: char -> bool, steps: seq<Step>, i: nat)
    requires DigitLaws(digit) && Undisturbed(digit, steps)
    requires var s := Run(digit, INITIAL, steps); i < |s.requests| && s.requests[i].status == Pending && s.requests[i].expiresAt > s.now
    ensures Approve(digit, Run(digit, INITIAL, steps), i).1
  {
    hide Run, Windows, Takes, Approve;
    ApprovalConflictsExactly(digit, steps, i);
  }

  /** Stored and entered forms of the number are both read back. */
  ghost predicate ReadBack(digit: char -> bool, p: string) {
    p != "" && Normalize(digit, p) == Some(p) && Normalize(digit, International(p)) == Some(p)
  }

  function Submission(p: string): Step { SubmitStep(p, None, "h", true, {}, 0) }

  function Inserted(p: string): Request
    requires p != ""
  {
    Request(International(p), None, Pending, "h", None, REQUEST_LIFETIME, "")
  }

  /** Request i is pending, in time, and its approval conflicts. */
  predicate CannotApprove(digit: char -> bool, s: State, i: nat) {
    i < |s.requests| && s.requests[i].status == Pending && s.requests[i].expiresAt > s.now && !Approve(digit, s, i).1
  }

  lemma Then(digit: char -> bool, steps: seq<Step>, step: Step)
    ensures Run(digit, INITIAL, steps + [step]) == Next(digit, Run(digit, INITIAL, steps), step)
  {
    hide Next;
    assert (steps + [step])[..|steps|] == steps;
  }

  lemma NothingExpires(requests: seq<Request>, now: int, chosen: set<nat>)
    requires forall i :: 0 <= i < |requests| ==> requests[i].status != Pending
    ensures ExpireChosen(requests, now, chosen) == requests
  {
  }

  /** A submission that saw no account inserts its request, if none is pending. */
  lemma GoesThrough(digit: char -> bool, s: State, p: string)
    requires ReadBack(digit, p) && s.now == 0 && forall i :: 0 <= i < |s.requests| ==> s.requests[i].status != Pending
    ensures Next(digit, s, Submission(p)) == s.(requests := s.requests + [Inserted(p)])
  {
    hide Normalize, International, ExpireChosen, Matching;
    NothingExpires(s.requests, s.now, Matching(s.requests, International(p), None) + {});
    assert Seen(s.users, 0) == [];
    hide SameContact, Seen;
  }

  lemma FirstApproved(digit: char -> bool, s: State, p: string)
    requires ReadBack(digit, p) && s == INITIAL.(requests := [Inserted(p)])
    ensures var t := Next(digit, s, ApproveStep(0));
            && t.users == [User(p, None, "h")] && |t.requests| == 1 && t.requests[0].status == Approved && t.now == 0
  {
    hide Normalize, International;
  }

  lemma SecondConflicts(digit: char -> bool, s: State, p: string)
    requires ReadBack(digit, p) && s.users == [User(p, None, "h")] && |s.requests| == 2 && s.requests[1] == Inserted(p) && s.now == 0
    ensures CannotApprove(digit, s, 1)
  {
    hide Normalize, International;
    assert s.users[0].phone == AccountOf(digit, s.requests[1]).phone;
  }

  lemma Nothing(digit: char -> bool)
    ensures Run(digit, INITIAL, []) == INITIAL
  {
  }

  lemma Raced(digit: char -> bool, p: string)
    requires p != "" && ReadBack(digit, p)
    ensures exists steps :: CannotApprove(digit, Run(digit, INITIAL, steps), 1)
  {
    hide *;
    var a: seq<Step> := [] + [Submission(p)];
    var b := a + [ApproveStep(0)];
    var c := b + [Submission(p)];
    Nothing(digit);
    Then(digit, [], Submission(p));
    Then(digit, a, ApproveStep(0));
    Then(digit, b, Submission(p));
    var s, t, u := Run(digit, INITIAL, a), Run(digit, INITIAL, b), Run(digit, INITIAL, c);
    StartsEmpty();
    GoesThrough(digit, INITIAL, p);
    assert s == INITIAL.(requests := [Inserted(p)]);
    FirstApproved(digit, s, p);
    GoesThrough(digit, t, p);
    assert u.requests == t.requests + [Inserted(p)] && u.users == t.users && u.now == 0;
    SecondConflicts(digit, u, p);
  }

  lemma StartsEmpty()
    ensures INITIAL.requests == [] && INITIAL.now == 0
  {
  }

  /** A second submission that looked before the first was approved and inserted after it: approving it conflicts. */
  lemma RacedSubmissionConflicts(digit: char -> bool)
    requires DigitLaws(digit)
    ensures exists steps :: CannotApprove(digit, Run(digit, INITIAL, steps), 1)
  {
    var p := "0912345678";
    assert Canonical(digit, p);
    InternationalRoundTrip(digit, p);
    hide Run, CannotApprove;
    Raced(digit, p);
  }

  // ---------------------------------------------------------------- the service

  class RegistrationDesk {
    var now: int
    var requests: seq<Request>
    var users: seq<User>

    constructor ()
      ensures View() == INITIAL
    {
      now, requests, users := 0, [], [];
    }

    function View(): State
      reads this
    {
      State(now, requests, users)
    }

    /** One row after another is closed and loses its hash. */
    method ExpireRequests(chosen: set<nat>)
      modifies this`requests
      ensures View() == old(View()).(requests := ExpireChosen(old(requests), now, chosen))
    {
      for i := 0 to |requests|
        invariant |requests| == |old(requests)|
        invariant forall k :: 0 <= k < |requests| ==>
                    requests[k] == if k < i then ExpireChosen(old(requests), now, chosen)[k] else old(requests)[k]
      {
        if i in chosen && Overdue(requests[i], now) {
          requests := requests[i := requests[i].(status := Expired)];
          requests := requests[i := requests[i].(passwordHash := "")];
          requests := requests[i := requests[i].(decidedAt := Some(now))];
        }
      }
      assert requests == ExpireChosen(old(requests), now, chosen);
    }

    method SubmitRegistration(digit: char -> bool, rawPhone: string, rawEmail: Option<string>, passwordHash: string,
                              unitExists: bool, batch: set<nat>) returns (r: Result<nat, Error>)
      modifies this`requests
      ensures match Submit(digit, old(View()), rawPhone, rawEmail, passwordHash, unitExists, batch, |old(users)|)
              case Ok(t) => r == Ok(|old(requests)|) && View() == t
              case Err(e) => r == Err(e) && View() == old(View())
    {
      hide Normalize, International, CleanEmail, PendingContact, HasAccount, Matching;
      assert Seen(users, |users|) == users;
      var local := Normalize(digit, rawPhone);
      if local.None? || !unitExists { return Err(RegistrationConflict); }
      var email := CleanEmail(rawEmail);
      var phone := International(local.value);
      var before := requests;
      ExpireRequests(Matching(requests, phone, email) + batch);
      if HasAccount(users, local.value, email) || PendingContact(requests, phone, email) {
        requests := before;
        return Err(RegistrationConflict);
      }
      requests := requests + [Request(phone, email, Pending, passwordHash, None, now + REQUEST_LIFETIME, "")];
      return Ok(|requests| - 1);
    }

    method ApproveRegistration(digit: char -> bool, i: nat) returns (approved: bool)
      modifies this`requests, this`users
      ensures (View(), approved) == Approve(digit, old(View()), i)
    {
      if i >= |requests| || requests[i].status != Pending { return false; }
      if requests[i].expiresAt <= now {
        requests := requests[i := Expire(requests[i], now)];
        return false;
      }
      var user := AccountOf(digit, requests[i]);
      if UserClash(users, user) { return false; }
      users := users + [user];
      requests := requests[i := requests[i].(status := Approved, passwordHash := "", decidedAt := Some(now))];
      return true;
    }

    method RejectRegistration(i: nat, reason: string) returns (r: Result<(), Error>)
      modifies this`requests
      ensures (View(), r) == Reject(old(View()), i, reason)
    {
      var stripped := Texts.Strip(reason);
      if stripped == "" { return Err(ReasonRequired); }
      if i >= |requests| || requests[i].status != Pending { return Err(RegistrationConflict); }
      if requests[i].expiresAt <= now {
        requests := requests[i := Expire(requests[i], now)];
        return Err(RegistrationConflict);
      }
      requests := requests[i := requests[i].(status := Rejected, passwordHash := "", reason := stripped, decidedAt := Some(now))];
      return Ok(());
    }
  }
}

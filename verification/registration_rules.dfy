/**
 What each step of a registration does, in terms of what was entered and what the tables say, and when requests are decided.
 */
module RegistrationRules {
  import opened Wrappers
  import opened Phones
  import opened Registration
  import Integrity
  import Texts

  // ---------------------------------------------------------------- what was entered

  /** The address as it is kept: trimmed and in lower case, None if there is nothing but white space. */
  ghost predicate KeptAs(entered: Option<string>, kept: Option<string>) {
    if entered.None? || forall i :: 0 <= i < |entered.value| ==> Texts.IsSpace(entered.value[i]) then kept.None?
    else
      && kept.Some?
      && (forall i :: 0 <= i < |kept.value| ==> !('A' <= kept.value[i] <= 'Z'))
      && exists core :: Texts.Trimmed(entered.value, core) && core != "" && !Texts.IsSpace(core[0]) && !Texts.IsSpace(core[|core| - 1])
                        && Integrity.SameButCase(core, kept.value)
  }

  lemma CleanIsKept(entered: Option<string>)
    ensures KeptAs(entered, CleanEmail(entered))
  {
    if entered.Some? && !Texts.Blank(entered.value) {
      var core := Texts.Strip(entered.value);
      Texts.StripTrims(entered.value);
      Integrity.LowerDecides(core, Integrity.Lower(core));
      LowerIsLower(core);
      hide Texts.IsSpace, Texts.Trimmed, Integrity.Lower, Integrity.SameButCase;
      assert Integrity.SameButCase(core, Integrity.Lower(core));
    }
  }

  lemma LowerIsLower(s: string)
    ensures forall i :: 0 <= i < |s| ==> !('A' <= Integrity.Lower(s)[i] <= 'Z')
    ensures Integrity.Lower(Integrity.Lower(s)) == Integrity.Lower(s)
  {
  }

  /** One of the accounts the look-up saw has this phone, or this address in any case. */
  ghost predicate AccountSeen(users: seq<User>, seen: nat, local: string, email: Option<string>) {
    exists k :: 0 <= k < |users| && k < seen
                && (users[k].phone == local
                    || (users[k].email.Some? && email.Some? && Integrity.SameButCase(users[k].email.value, email.value)))
  }

  /** A request for this phone or address is pending and in time. */
  ghost predicate RequestStands(s: State, batch: set<nat>, phone: string, email: Option<string>) {
    exists i :: 0 <= i < |s.requests| && s.requests[i].status == Pending && s.now < s.requests[i].expiresAt
                && (s.requests[i].phone == phone || (email.Some? && s.requests[i].email == email))
  }

  // ---------------------------------------------------------------- submission

  lemma SeenMeans(users: seq<User>, seen: nat, local: string, email: Option<string>)
    ensures HasAccount(Seen(users, seen), local, email) <==> AccountSeen(users, seen, local, email)
  {
    var some := Seen(users, seen);
    forall k | 0 <= k < |some| ensures SameAddress(some[k].email, email)
        <==> some[k].email.Some? && email.Some? && Integrity.SameButCase(some[k].email.value, email.value) {
      if some[k].email.Some? && email.Some? { Integrity.LowerDecides(some[k].email.value, email.value); }
    }
    hide SameAddress, Integrity.SameButCase;
    if AccountSeen(users, seen, local, email) {
      var k :| 0 <= k < |users| && k < seen
               && (users[k].phone == local || (users[k].email.Some? && email.Some? && Integrity.SameButCase(users[k].email.value, email.value)));
      assert some[k] == users[k];
    }
    if HasAccount(some, local, email) {
      var k :| 0 <= k < |some| && (some[k].phone == local || SameAddress(some[k].email, email));
      assert users[k] == some[k];
    }
  }

  /** The requests after those expired that stand in the way or that the clean-up picked. */
  lemma StandsMeans(s: State, batch: set<nat>, phone: string, email: Option<string>)
    ensures PendingContact(ExpireChosen(s.requests, s.now, Matching(s.requests, phone, email) + batch), phone, email)
       <==> RequestStands(s, batch, phone, email)
  {
    var after := ExpireChosen(s.requests, s.now, Matching(s.requests, phone, email) + batch);
    if RequestStands(s, batch, phone, email) {
      var i :| 0 <= i < |s.requests| && s.requests[i].status == Pending && s.now < s.requests[i].expiresAt
               && (s.requests[i].phone == phone || (email.Some? && s.requests[i].email == email));
      assert after[i] == s.requests[i] && SameContact(after[i], phone, email);
    }
    if PendingContact(after, phone, email) {
      var i :| 0 <= i < |after| && after[i].status == Pending && SameContact(after[i], phone, email);
      assert i in Matching(s.requests, phone, email);
    }
  }

  /** Overdue requests for the same contact, or picked by the clean-up, expire now and lose their hashes; a new one is pending for thirty days. */
  ghost predicate Inserted(s: State, t: State, batch: set<nat>, phone: string, email: Option<string>, passwordHash: string) {
    && t == s.(requests := t.requests) && |t.requests| == |s.requests| + 1
    && t.requests[|s.requests|] == Request(phone, email, Pending, passwordHash, None, s.now + 2_592_000, "")
    && forall i :: 0 <= i < |s.requests| ==>
         t.requests[i] ==
         if s.requests[i].status == Pending && s.requests[i].expiresAt <= s.now
            && (i in batch || s.requests[i].phone == phone || (email.Some? && s.requests[i].email == email))
         then Request(s.requests[i].phone, s.requests[i].email, Expired, "", Some(s.now), s.requests[i].expiresAt, s.requests[i].reason)
         else s.requests[i]
  }

  /**
   A submission goes through exactly if its number is one, the unit exists, no account the look-up saw has the contact, and no request
   for it is pending and in time; and then it inserts the request and expires what stood in its way.
   */
  lemma SubmitsExactly(digit: char -> bool, s: State, rawPhone: string, rawEmail: Option<string>, passwordHash: string, unitExists: bool,
                       batch: set<nat>, seen: nat)
    ensures var r, email := Submit(digit, s, rawPhone, rawEmail, passwordHash, unitExists, batch, seen), CleanEmail(rawEmail);
            && KeptAs(rawEmail, email)
            && (r.Err? ==> r.error == RegistrationConflict)
            && (r.Ok? <==> && Normalize(digit, rawPhone).Some? && unitExists
                           && !AccountSeen(s.users, seen, Normalize(digit, rawPhone).value, email)
                           && !RequestStands(s, batch, "+84" + Normalize(digit, rawPhone).value[1..], email))
            && (r.Ok? ==> Inserted(s, r.value, batch, "+84" + Normalize(digit, rawPhone).value[1..], email, passwordHash))
  {
    CleanIsKept(rawEmail);
    hide CleanEmail, KeptAs, Normalize, HasAccount, AccountSeen, PendingContact, RequestStands, Canonical;
    if Normalize(digit, rawPhone).Some? {
      var local, email := Normalize(digit, rawPhone).value, CleanEmail(rawEmail);
      IsLong(digit, rawPhone);
      SeenMeans(s.users, seen, local, email);
      StandsMeans(s, batch, "+84" + local[1..], email);
    }
  }

  lemma IsLong(digit: char -> bool, raw: string)
    requires Normalize(digit, raw).Some?
    ensures Normalize(digit, raw).value != ""
  {
  }

  // ---------------------------------------------------------------- decisions

  ghost predicate ContactOf(u: User, local: string, email: Option<string>) { u.phone == local || (email.Some? && u.email == email) }

  /** Only request i changes, and from pending. */
  ghost predicate Decides(s: State, t: State, i: nat, status: Status, reason: string) {
    && i < |s.requests| && s.requests[i].status == Pending
    && t.requests == s.requests[i := Request(s.requests[i].phone, s.requests[i].email, status, "", Some(s.now), s.requests[i].expiresAt, reason)]
    && t.now == s.now
  }

  /**
   In every run: approving a pending request in time creates the one account with its number in local form, its address and its
   password, unless the contact is taken; approving an overdue one expires it; anything else changes nothing.
   */
  lemma ApprovesExactly(digit: char -> bool, steps: seq<Step>, i: nat)
    requires DigitLaws(digit)
    ensures var s := Run(digit, INITIAL, steps);
            var (t, approved) := Approve(digit, s, i);
            if i >= |s.requests| || s.requests[i].status != Pending then t == s && !approved
            else if s.requests[i].expiresAt <= s.now then !approved && t.users == s.users && Decides(s, t, i, Expired, "")
            else
              && |s.requests[i].phone| > 3
              && var local := "0" + s.requests[i].phone[3..];
                 var taken := exists k :: 0 <= k < |s.users| && ContactOf(s.users[k], local, s.requests[i].email);
                 approved == !taken
                 && (taken ==> t == s)
                 && (!taken ==> && t.users == s.users + [User(local, s.requests[i].email, s.requests[i].passwordHash)]
                                && Decides(s, t, i, Approved, ""))
  {
    RunKeeps(digit, steps);
    var s, ws := Run(digit, INITIAL, steps), Windows(digit, steps);
    hide Run, Windows, NoClash, Apart, Missed;
    if i < |s.requests| && s.requests[i].status == Pending {
      assert RequestOk(digit, s.requests[i]);
      LocalAgain(digit, s.requests[i]);
      hide Normalize, DigitLaws, RequestOk;
      if s.requests[i].expiresAt > s.now { ClashMeans(digit, s.users, s.requests[i]); }
      assert s.requests[i].reason == "" by { NoReasonYet(digit, s, ws, i); }
    }
  }

  /** The stored number in local form again. */
  lemma LocalAgain(digit: char -> bool, r: Request)
    requires DigitLaws(digit) && RequestOk(digit, r)
    ensures |r.phone| > 3 && AccountOf(digit, r) == User("0" + r.phone[3..], r.email, r.passwordHash)
  {
    var p :| Canonical(digit, p) && r.phone == International(p);
    InternationalRoundTrip(digit, p);
    assert r.phone[3..] == p[1..];
    assert p == "0" + p[1..];
  }

  /** A rejection needs a reason and a pending request in time; an overdue one expires; anything else changes nothing. */
  lemma RejectsExactly(digit: char -> bool, steps: seq<Step>, i: nat, reason: string)
    requires DigitLaws(digit)
    ensures var s := Run(digit, INITIAL, steps);
            var (t, r) := Reject(s, i, reason);
            if forall j :: 0 <= j < |reason| ==> Texts.IsSpace(reason[j]) then t == s && r == Err(ReasonRequired)
            else if i >= |s.requests| || s.requests[i].status != Pending then t == s && r == Err(RegistrationConflict)
            else if s.requests[i].expiresAt <= s.now then t.users == s.users && Decides(s, t, i, Expired, "") && r == Err(RegistrationConflict)
            else r.Ok? && t.users == s.users && exists kept :: Texts.Trimmed(reason, kept) && kept != "" && Decides(s, t, i, Rejected, kept)
  {
    RunKeeps(digit, steps);
    var s, ws := Run(digit, INITIAL, steps), Windows(digit, steps);
    hide Run, Windows, NoClash, Apart, Missed, RequestOk;
    Texts.StripTrims(reason);
    if i < |s.requests| && s.requests[i].status == Pending { NoReasonYet(digit, s, ws, i); }
    hide Inv, Texts.Trimmed, Texts.IsSpace;
    var kept := Texts.Strip(reason);
    assert Reject(s, i, reason).1.Ok? ==> Decides(s, Reject(s, i, reason).0, i, Rejected, kept);
  }

  // ---------------------------------------------------------------- deadlines

  /** Approved or rejected before its thirty days were over, expired only after; undecided while pending, and with its password. */
  ghost predicate InTime(r: Request, now: int) {
    && (r.status == Pending <==> r.decidedAt.None?)
    && (r.decidedAt.Some? ==> r.decidedAt.value <= now)
    && (r.status == Approved || r.status == Rejected ==> r.decidedAt.value < r.expiresAt)
    && (r.status == Expired ==> r.decidedAt.value >= r.expiresAt)
  }

  ghost predicate AllInTime(s: State) { forall i :: 0 <= i < |s.requests| ==> InTime(s.requests[i], s.now) }

  lemma StepInTime(digit: char -> bool, s: State, step: Step)
    requires AllInTime(s)
    ensures AllInTime(Next(digit, s, step))
  {
    var t := Next(digit, s, step);
    hide AccountOf, UserClash, Normalize, CleanEmail, HasAccount, PendingContact, Matching, Texts.Strip;
    forall i | 0 <= i < |t.requests| ensures InTime(t.requests[i], t.now) {
      if i < |s.requests| { assert InTime(s.requests[i], s.now); }
    }
  }

  /** In every run. */
  lemma {:induction false} DecidedInTime(digit: char -> bool, steps: seq<Step>)
    ensures AllInTime(Run(digit, INITIAL, steps))
  {
    hide Next, AllInTime;
    if steps == [] {
      assert AllInTime(INITIAL) by { NoRequests(); }
    } else {
      DecidedInTime(digit, steps[..|steps| - 1]);
      StepInTime(digit, Run(digit, INITIAL, steps[..|steps| - 1]), steps[|steps| - 1]);
    }
  }

  lemma NoRequests()
    ensures AllInTime(INITIAL)
  {
  }
}

/**
  Registration invites. A registration reserves a use of its code, creates the account, and gives the
  use back if that fails; many registrations, revocations and failures run at once.
 */
module Invites {
  import opened Wrappers
  import opened Text

  type Time = int
  type Digest = string
  type Ticket = nat

  const DAY: int := 86_400_000_000_000

  datatype Invite = Invite(
    maxUses: int, useCount: int, expiresAt: Option<Time>, disabledAt: Option<Time>, lastUsedAt: Option<Time>)
  {
    predicate AvailableAt(now: Time) {
      disabledAt.None? && (expiresAt.None? || expiresAt.value > now) && useCount < maxUses
    }
  }

  /** What became of one successful consumption. */
  datatype Status = InFlight | Account | Stuck

  datatype Reservation = Reservation(code: Digest, status: Status)

  /** `tickets` is bookkeeping of the proof: one for every consumption that was not given back. */
  datatype World = World(invites: map<Digest, Invite>, users: set<string>, tickets: map<Ticket, Reservation>)

  datatype Step =
    | Issue(code: Digest, invite: Invite)
    | Disable(code: Digest, now: Time)
    | Consume(ticket: Ticket, code: Digest, now: Time)
    | CreateWithInvite(ticket: Ticket, username: string)
    | CreateFreely(username: string)
    | Release(ticket: Ticket)
    | ReleaseFails(ticket: Ticket)

  // ---------------------------------------------------------------- the statements

  function Consumed(invite: Invite, now: Time): Invite {
    invite.(useCount := invite.useCount + 1, lastUsedAt := Some(now))
  }

  /** `SET use_count = use_count - 1, last_used_at = NULL WHERE use_count > 0` */
  function Released(invite: Invite): Invite {
    if invite.useCount > 0 then invite.(useCount := invite.useCount - 1, lastUsedAt := None) else invite
  }

  function Disabled(invite: Invite, now: Time): Invite {
    if invite.disabledAt.None? then invite.(disabledAt := Some(now)) else invite
  }

  ghost predicate Holds(w: World, ticket: Ticket) {
    ticket in w.tickets && w.tickets[ticket].status == InFlight
  }

  ghost predicate Enabled(w: World, step: Step) {
    match step
    case Issue(code, invite) => code !in w.invites && invite.useCount == 0 && invite.maxUses >= 1
    case Disable(code, now) => code in w.invites
    case Consume(ticket, code, now) => ticket !in w.tickets && code in w.invites && w.invites[code].AvailableAt(now)
    case CreateWithInvite(ticket, username) => Holds(w, ticket) && username !in w.users
    case CreateFreely(username) => username !in w.users
    case Release(ticket) => Holds(w, ticket)
    case ReleaseFails(ticket) => Holds(w, ticket)
  }

  ghost function Next(w: World, step: Step): World
    requires Balanced(w) && Enabled(w, step)
  {
    match step
    case Issue(code, invite) => w.(invites := w.invites[code := invite])
    case Disable(code, now) => w.(invites := w.invites[code := Disabled(w.invites[code], now)])
    case Consume(ticket, code, now) =>
      w.(invites := w.invites[code := Consumed(w.invites[code], now)],
         tickets := w.tickets[ticket := Reservation(code, InFlight)])
    case CreateWithInvite(ticket, username) =>
      w.(users := w.users + {username}, tickets := w.tickets[ticket := w.tickets[ticket].(status := Account)])
    case CreateFreely(username) => w.(users := w.users + {username})
    case Release(ticket) =>
      var code := w.tickets[ticket].code;
      w.(invites := w.invites[code := Released(w.invites[code])], tickets := w.tickets - {ticket})
    case ReleaseFails(ticket) => w.(tickets := w.tickets[ticket := w.tickets[ticket].(status := Stuck)])
  }

  // ---------------------------------------------------------------- conservation

  /** What the two statements about a code write: one use more and its time, or one use less and no time. */
  lemma StatementsWrite(w: World, ticket: Ticket, code: Digest, now: Time)
    requires Balanced(w) && code in w.invites
    ensures Enabled(w, Consume(ticket, code, now)) ==>
      Next(w, Consume(ticket, code, now)).invites == w.invites[code := w.invites[code].(
        useCount := w.invites[code].useCount + 1, lastUsedAt := Some(now))]
    ensures Holds(w, ticket) && w.tickets[ticket].code == code ==>
      Next(w, Release(ticket)).invites == w.invites[code := w.invites[code].(
        useCount := w.invites[code].useCount - 1, lastUsedAt := None)]
  {
    if Holds(w, ticket) && w.tickets[ticket].code == code {
      ReleaseIsNeverBlocked(w, ticket);
    }
  }

  ghost function TicketsFor(w: World, code: Digest): set<Ticket> {
    set ticket | ticket in w.tickets && w.tickets[ticket].code == code
  }

  ghost function With(w: World, code: Digest, status: Status): set<Ticket> {
    set ticket | ticket in w.tickets && w.tickets[ticket] == Reservation(code, status)
  }

  ghost predicate BalancedCode(w: World, code: Digest)
    requires code in w.invites
  {
    w.invites[code].useCount == |TicketsFor(w, code)| <= w.invites[code].maxUses
  }

  ghost predicate Balanced(w: World) {
    && (forall ticket | ticket in w.tickets :: w.tickets[ticket].code in w.invites)
    && forall code | code in w.invites :: BalancedCode(w, code)
  }

  lemma SameTickets(w: World, next: World, code: Digest)
    requires TicketsFor(next, code) == TicketsFor(w, code) && code in w.invites && code in next.invites
    requires BalancedCode(w, code)
    requires next.invites[code].useCount == w.invites[code].useCount
    requires next.invites[code].maxUses == w.invites[code].maxUses
    ensures BalancedCode(next, code)
  {
  }

  lemma ConsumeKeepsBalance(w: World, ticket: Ticket, code: Digest, now: Time, other: Digest)
    requires Balanced(w) && Enabled(w, Consume(ticket, code, now)) && other in w.invites
    ensures BalancedCode(Next(w, Consume(ticket, code, now)), other)
  {
    var next := Next(w, Consume(ticket, code, now));
    if other == code {
      assert TicketsFor(next, code) == TicketsFor(w, code) + {ticket};
    } else {
      assert TicketsFor(next, other) == TicketsFor(w, other);
    }
  }

  /** The guard of the release never blocks a registration that gives its own use back. */
  lemma ReleaseIsNeverBlocked(w: World, ticket: Ticket)
    requires Balanced(w) && Holds(w, ticket)
    ensures w.invites[w.tickets[ticket].code].useCount > 0
  {
    assert ticket in TicketsFor(w, w.tickets[ticket].code);
  }

  lemma ReleaseKeepsBalance(w: World, ticket: Ticket, other: Digest)
    requires Balanced(w) && Enabled(w, Release(ticket)) && other in w.invites
    ensures BalancedCode(Next(w, Release(ticket)), other)
  {
    var next := Next(w, Release(ticket));
    ReleaseIsNeverBlocked(w, ticket);
    if other == w.tickets[ticket].code {
      assert TicketsFor(next, other) == TicketsFor(w, other) - {ticket};
    } else {
      assert TicketsFor(next, other) == TicketsFor(w, other);
    }
  }

  lemma StepKeepsBalance(w: World, step: Step)
    requires Balanced(w) && Enabled(w, step)
    ensures Balanced(Next(w, step))
  {
    var next := Next(w, step);
    forall code | code in next.invites ensures BalancedCode(next, code) {
      match step
      case Consume(ticket, used, now) => ConsumeKeepsBalance(w, ticket, used, now, code);
      case Release(ticket) => ReleaseKeepsBalance(w, ticket, code);
      case Issue(issued, invite) => assert TicketsFor(next, code) == TicketsFor(w, code);
      case _ =>
        assert TicketsFor(next, code) == TicketsFor(w, code);
        SameTickets(w, next, code);
    }
  }

  /**
    Conservation: accounts created with a code, reservations in flight and reservations whose release
    failed add up to its use count, which never exceeds its maximum.
   */
  lemma InviteConservation(w: World, code: Digest)
    requires Balanced(w) && code in w.invites
    ensures |With(w, code, Account)| + |With(w, code, InFlight)| + |With(w, code, Stuck)| == w.invites[code].useCount
    ensures |With(w, code, Account)| <= w.invites[code].maxUses
  {
    var a, b, c := With(w, code, Account), With(w, code, InFlight), With(w, code, Stuck);
    forall ticket | ticket in TicketsFor(w, code) ensures ticket in a + b + c {
      match w.tickets[ticket].status
      case Account => assert ticket in a;
      case InFlight => assert ticket in b;
      case Stuck => assert ticket in c;
    }
    assert TicketsFor(w, code) == a + b + c;
    assert |a + b + c| == |a + b| + |c|;
    assert |a + b| == |a| + |b|;
  }

  ghost predicate ValidRun(w: World, steps: seq<Step>)
    requires Balanced(w)
    decreases |steps|
  {
    steps == [] || (Enabled(w, steps[0]) && (StepKeepsBalance(w, steps[0]); ValidRun(Next(w, steps[0]), steps[1..])))
  }

  ghost function After(w: World, steps: seq<Step>): (r: World)
    requires Balanced(w) && ValidRun(w, steps)
    ensures Balanced(r)
    decreases |steps|
  {
    if steps == [] then w else StepKeepsBalance(w, steps[0]); After(Next(w, steps[0]), steps[1..])
  }

  /** Limits are never edited, and codes and accounts never disappear. */
  lemma {:induction false} RunKeepsLimits(w: World, steps: seq<Step>)
    requires Balanced(w) && ValidRun(w, steps)
    ensures w.users <= After(w, steps).users
    ensures forall code | code in w.invites ::
      code in After(w, steps).invites && After(w, steps).invites[code].maxUses == w.invites[code].maxUses
    decreases |steps|
  {
    if steps != [] {
      StepKeepsBalance(w, steps[0]);
      RunKeepsLimits(Next(w, steps[0]), steps[1..]);
    }
  }

  /** No code ever yields more accounts than it was issued for. */
  lemma NoCodeIsOverused(w: World, steps: seq<Step>, code: Digest)
    requires Balanced(w) && ValidRun(w, steps) && code in w.invites
    ensures |With(After(w, steps), code, Account)| <= w.invites[code].maxUses
  {
    RunKeepsLimits(w, steps);
    InviteConservation(After(w, steps), code);
  }

  /** Every attempt of the run on this code comes when it has expired. */
  ghost predicate ConsumedAfter(steps: seq<Step>, code: Digest, expiry: Time) {
    forall i :: 0 <= i < |steps| && steps[i].Consume? && steps[i].code == code ==> steps[i].now >= expiry
  }

  /** An expired code is never consumed again, not even after releases. */
  lemma {:induction false} ExpiredStaysExpired(w: World, steps: seq<Step>, code: Digest, expiry: Time)
    requires Balanced(w) && ValidRun(w, steps) && code in w.invites && w.invites[code].expiresAt == Some(expiry)
    requires ConsumedAfter(steps, code, expiry)
    ensures code in After(w, steps).invites && After(w, steps).invites[code].expiresAt == Some(expiry)
    ensures TicketsFor(After(w, steps), code) <= TicketsFor(w, code)
    decreases |steps|
  {
    if steps != [] {
      StepKeepsBalance(w, steps[0]);
      ExpiredStaysExpired(Next(w, steps[0]), steps[1..], code, expiry);
    }
  }

  /** A revoked code is never consumed again, not even after releases. */
  lemma {:induction false} RevokedStaysRevoked(w: World, steps: seq<Step>, code: Digest)
    requires Balanced(w) && ValidRun(w, steps) && code in w.invites && w.invites[code].disabledAt.Some?
    ensures code in After(w, steps).invites && After(w, steps).invites[code].disabledAt == w.invites[code].disabledAt
    ensures TicketsFor(After(w, steps), code) <= TicketsFor(w, code)
    decreases |steps|
  {
    if steps != [] {
      StepKeepsBalance(w, steps[0]);
      RevokedStaysRevoked(Next(w, steps[0]), steps[1..], code);
    }
  }

  // ---------------------------------------------------------------- the services

  function CodeHash(digest: string -> Digest, code: string): Digest {
    digest(Trim(code))
  }

  /** Between two statements of one registration others may run, but none of them touches its reservation. */
  ghost predicate Keeps(was: World, now: World, ticket: Ticket) {
    Holds(was, ticket) ==> ticket in now.tickets && now.tickets[ticket] == was.tickets[ticket]
  }

  /** The last step of a registration that got as far as creating its account. */
  ghost function Ending(
      inviteRequired: bool, created: bool, releaseFault: bool, ticket: Ticket, username: string): Option<Step>
  {
    if created then Some(if inviteRequired then CreateWithInvite(ticket, username) else CreateFreely(username))
    else if !inviteRequired then None
    else Some(if releaseFault then ReleaseFails(ticket) else Step.Release(ticket))
  }

  class Registry {
    var invites: map<Digest, Invite>
    var users: set<string>
    ghost var tickets: map<Ticket, Reservation>
    ghost var nextTicket: Ticket

    ghost function Value(): World
      reads this
    {
      World(invites, users, tickets)
    }

    ghost predicate Valid()
      reads this
    {
      Balanced(Value()) && forall ticket | ticket in tickets :: ticket < nextTicket
    }

    constructor ()
      ensures Valid() && Value() == World(map[], {}, map[])
    {
      invites, users, tickets, nextTicket := map[], {}, map[], 0;
    }

    /** Anything other requests may do meanwhile; nothing when the call is declared quiet. */
    method Interfere(ghost mine: set<Ticket>, ghost quiet: bool)
      requires Valid()
      modifies this
      ensures quiet ==> Value() == old(Value())
      ensures Valid() && old(users) <= users && old(invites).Keys <= invites.Keys && old(nextTicket) <= nextTicket
      ensures forall ticket | ticket in mine :: Keeps(old(Value()), Value(), ticket)
      ensures forall code | code in old(invites) :: invites[code].maxUses == old(invites)[code].maxUses
    {
    }

    /** An administrator's new code. `fault` stands for a database failure. */
    method Issue(
        admin: nat, digest: string -> Digest, code: string, maxUses: int, validDays: int, now: Time, fault: bool)
      returns (r: Result<Invite>)
      requires Valid()
      modifies this`invites
      ensures Valid()
      ensures r == if admin == 0 || maxUses < 1 || maxUses > 1000 || validDays < 1 || validDays > 365 then
                     Err(InvalidInput)
                   else if fault || CodeHash(digest, code) in old(invites) then Err(Fault)
                   else Ok(Invite(maxUses, 0, Some(now + validDays * DAY), None, None))
      ensures invites == if r.Ok? then old(invites)[CodeHash(digest, code) := r.value] else old(invites)
      ensures r.Ok? ==> Value() == Next(old(Value()), Step.Issue(CodeHash(digest, code), r.value))
    {
      ghost var was := Value();
      if admin == 0 || maxUses < 1 || maxUses > 1000 || validDays < 1 || validDays > 365 {
        return Err(InvalidInput);
      }
      var hash := digest(Trim(code));
      if fault || hash in invites {
        return Err(Fault);
      }
      var invite := Invite(maxUses, 0, Some(now + validDays * DAY), None, None);
      StepKeepsBalance(was, Step.Issue(hash, invite));
      invites := invites[hash := invite];
      return Ok(invite);
    }

    method Disable(code: Digest, now: Time) returns (r: Result<Invite>)
      requires Valid()
      modifies this`invites
      ensures Valid()
      ensures r.Ok? <==> code in old(invites)
      ensures if r.Ok? then Value() == Next(old(Value()), Step.Disable(code, now)) && r.value == invites[code]
              else r == Err(NotFound) && Value() == old(Value())
      ensures r.Ok? ==>
        r.value == old(invites)[code].(
          disabledAt := if old(invites)[code].disabledAt.Some? then old(invites)[code].disabledAt else Some(now))
    {
      ghost var was := Value();
      if code !in invites {
        return Err(NotFound);
      }
      StepKeepsBalance(was, Step.Disable(code, now));
      if invites[code].disabledAt.None? {
        invites := invites[code := invites[code].(disabledAt := Some(now))];
      }
      assert invites == Next(was, Step.Disable(code, now)).invites;
      return Ok(invites[code]);
    }

    method ConsumeHash(hash: Digest, now: Time) returns (r: Result<()>, ghost ticket: Ticket)
      requires Valid()
      modifies this`invites, this`tickets, this`nextTicket
      ensures Valid() && ticket == old(nextTicket) <= nextTicket
      ensures r == if hash in old(invites) && old(invites)[hash].AvailableAt(now) then Ok(()) else Err(InviteInvalid)
      ensures Value() == if r.Ok? then Next(old(Value()), Step.Consume(ticket, hash, now)) else old(Value())
    {
      ghost var was := Value();
      ticket := nextTicket;
      if hash !in invites || !invites[hash].AvailableAt(now) {
        return Err(InviteInvalid), ticket;
      }
      StepKeepsBalance(was, Step.Consume(ticket, hash, now));
      var invite := invites[hash];
      invites := invites[hash := invite.(useCount := invite.useCount + 1, lastUsedAt := Some(now))];
      tickets, nextTicket := tickets[ticket := Reservation(hash, InFlight)], ticket + 1;
      return Ok(()), ticket;
    }

    /** `fault` stands for a database failure: the statement then does nothing. */
    method ReleaseHash(hash: Digest, fault: bool, ghost ticket: Ticket) returns (r: Result<()>)
      requires Valid() && Holds(Value(), ticket) && tickets[ticket].code == hash
      modifies this`invites, this`tickets
      ensures Valid() && r == if fault then Err(Fault) else Ok(())
      ensures Value() == Next(old(Value()), if fault then ReleaseFails(ticket) else Step.Release(ticket))
    {
      ghost var was := Value();
      StepKeepsBalance(was, if fault then ReleaseFails(ticket) else Step.Release(ticket));
      ReleaseIsNeverBlocked(was, ticket);
      if fault {
        tickets := tickets[ticket := tickets[ticket].(status := Stuck)];
        return Err(Fault);
      }
      if hash in invites && invites[hash].useCount > 0 {
        invites := invites[hash := invites[hash].(useCount := invites[hash].useCount - 1, lastUsedAt := None)];
      }
      tickets := tickets - {ticket};
      assert Value() == Next(was, Step.Release(ticket));
      return Ok(());
    }

    method Consume(digest: string -> Digest, code: string, now: Time) returns (r: Result<()>, ghost ticket: Ticket)
      requires Valid()
      modifies this`invites, this`tickets, this`nextTicket
      ensures Valid() && ticket == old(nextTicket) <= nextTicket
      ensures r == if Blank(code) then Err(InviteRequired)
                   else if Usable(old(Value()), CodeHash(digest, code), now) then Ok(()) else Err(InviteInvalid)
      ensures Value() ==
        if r.Ok? then Next(old(Value()), Step.Consume(ticket, CodeHash(digest, code), now)) else old(Value())
    {
      var trimmed := Trim(code);
      if trimmed == "" {
        return Err(InviteRequired), nextTicket;
      }
      TrimOfTrim(code);
      r, ticket := ConsumeHash(digest(Trim(trimmed)), now);
    }

    method Release(digest: string -> Digest, code: string, fault: bool, ghost ticket: Ticket) returns (r: Result<()>)
      requires Valid()
      requires !Blank(code) ==> Holds(Value(), ticket) && tickets[ticket].code == CodeHash(digest, code)
      modifies this`invites, this`tickets
      ensures Valid()
      ensures Blank(code) ==> r == Err(InviteRequired) && Value() == old(Value())
      ensures !Blank(code) ==> r == if fault then Err(Fault) else Ok(())
      ensures !Blank(code) ==>
        Value() == Next(old(Value()), if fault then ReleaseFails(ticket) else Step.Release(ticket))
    {
      var trimmed := Trim(code);
      if trimmed == "" {
        return Err(InviteRequired);
      }
      TrimOfTrim(code);
      r := ReleaseHash(digest(Trim(trimmed)), fault, ticket);
    }

    /** Take a use of the code if the policy asks for one; others may run after that. */
    method Reserve(inviteRequired: bool, digest: string -> Digest, code: string, now: Time, ghost quiet: bool)
      returns (r: Result<()>, ghost seen: World, ghost ticket: Ticket)
      requires Valid()
      modifies this
      ensures Valid() && seen == old(Value()) && ticket == old(nextTicket) <= nextTicket
      ensures r == if inviteRequired && Blank(code) then Err(InviteRequired)
                   else if inviteRequired && !Usable(seen, CodeHash(digest, code), now) then Err(InviteInvalid)
                   else Ok(())
      ensures r.Err? || !inviteRequired ==> Value() == seen
      ensures r.Ok? && inviteRequired ==>
        Holds(Value(), ticket) && tickets[ticket].code == CodeHash(digest, code)
      ensures r.Ok? && inviteRequired && quiet ==>
        Value() == Next(seen, Step.Consume(ticket, CodeHash(digest, code), now))
    {
      seen, ticket := Value(), nextTicket;
      if inviteRequired {
        r, ticket := Consume(digest, code, now);
        if r.Ok? {
          Interfere({ticket}, quiet);
        }
        return;
      }
      return Ok(()), seen, ticket;
    }

    /** `userRepo.Create`, and the release if it fails. */
    method CreateUser(
        username: string, inviteRequired: bool, digest: string -> Digest, code: string, createFault: bool,
        releaseFault: bool, ghost ticket: Ticket)
      returns (r: Result<string>, ghost step: Option<Step>)
      requires Valid()
      requires inviteRequired ==>
        !Blank(code) && Holds(Value(), ticket) && tickets[ticket].code == CodeHash(digest, code)
      modifies this`invites, this`tickets, this`users
      ensures Valid()
      ensures r == if createFault || username in old(users) then Err(Fault) else Ok(username)
      ensures step == Ending(inviteRequired, r.Ok?, releaseFault, ticket, username)
      ensures if step.Some? then Enabled(old(Value()), step.value) && Value() == Next(old(Value()), step.value)
              else Value() == old(Value())
    {
      ghost var before := Value();
      step := Ending(inviteRequired, !(createFault || username in users), releaseFault, ticket, username);
      if createFault || username in users {
        if inviteRequired {
          var _ := Release(digest, code, releaseFault, ticket);
        }
        return Err(Fault), step;
      }
      StepKeepsBalance(before, step.value);
      users := users + {username};
      tickets := Next(before, step.value).tickets;
      return Ok(username), step;
    }

    /**
      Reserve a use, create the account, and give the use back if that fails. The checks of address and
      password are summed up in `precheck`; the two flags are failures of the database.
     */
    method Register(
        username: string, precheck: Result<()>, inviteRequired: bool, digest: string -> Digest, code: string, now: Time,
        createFault: bool, releaseFault: bool, ghost quiet: bool)
      returns (r: Result<string>, ghost seen: World, ghost before: World, ghost last: Option<Step>,
               ghost ticket: Ticket)
      requires Valid()
      modifies this
      ensures Valid() && Balanced(seen) && Balanced(before) && ticket !in old(tickets)
      ensures if last.Some? then Enabled(before, last.value) && Value() == Next(before, last.value)
              else Value() == before
      ensures precheck.Err? ==> r == Err(precheck.error) && last.None? && Value() == old(Value())
      ensures precheck.Ok? && username in old(users) ==>
        r == Err(UserAlreadyExists) && last.None? && Value() == old(Value())
      ensures precheck.Ok? && username !in old(users) ==>
        RegisterAnswer(username, inviteRequired, Blank(code), CodeHash(digest, code), now, createFault, releaseFault,
                       seen, before, last, ticket, r)
      ensures ticket in tickets <==> inviteRequired && last.Some? && (r.Ok? || releaseFault)
      ensures ticket in tickets ==>
        tickets[ticket] == Reservation(CodeHash(digest, code), if r.Ok? then Account else Stuck)
      ensures quiet ==> seen == old(Value())
      ensures quiet && precheck.Ok? && username !in old(users) ==>
        RegisteredAlone(username, inviteRequired, Blank(code), CodeHash(digest, code), now, createFault, releaseFault,
                        old(Value()), Value(), r)
    {
      ghost var start := Value();
      seen, before, last, ticket := start, start, None, nextTicket;
      if precheck.Err? {
        return Err(precheck.error), seen, before, last, ticket;
      }
      if username in users {
        return Err(UserAlreadyExists), seen, before, last, ticket;
      }
      Interfere({}, quiet);
      var reserved;
      reserved, seen, ticket := Reserve(inviteRequired, digest, code, now, quiet);
      before := Value();
      if reserved.Err? {
        return Err(reserved.error), seen, before, last, ticket;
      }
      r, last := CreateUser(username, inviteRequired, digest, code, createFault, releaseFault, ticket);
      if quiet {
        AloneIsRegistered(
          username, inviteRequired, CodeHash(digest, code), now, createFault, releaseFault, start, before, ticket,
          Value(), r);
      }
    }
  }

  /** An invite that can be used now. */
  ghost predicate Usable(w: World, hash: Digest, now: Time) {
    && hash in w.invites && w.invites[hash].disabledAt.None?
    && (w.invites[hash].expiresAt.None? || now < w.invites[hash].expiresAt.value)
    && w.invites[hash].useCount < w.invites[hash].maxUses
  }

  /**
    The answer of a registration that passed its checks: `seen` is what it found when it asked for the
    code, `before` when it created the account. A refused code makes no account and takes nothing.
   */
  ghost predicate RegisterAnswer(
      username: string, inviteRequired: bool, blank: bool, hash: Digest, now: Time, createFault: bool,
      releaseFault: bool, seen: World, before: World, last: Option<Step>, ticket: Ticket, r: Result<string>)
  {
    if inviteRequired && blank then r == Err(InviteRequired) && last.None? && before == seen
    else if inviteRequired && !Usable(seen, hash, now) then r == Err(InviteInvalid) && last.None? && before == seen
    else if createFault || username in before.users then
      && r == Err(Fault)
      && last == (if !inviteRequired then None
                  else Some(if releaseFault then ReleaseFails(ticket) else Step.Release(ticket)))
    else
      && r == Ok(username)
      && last == Some(if inviteRequired then CreateWithInvite(ticket, username) else CreateFreely(username))
  }

  /** With nobody else at work: the account exists afterwards if and only if nothing stood in its way. */
  ghost predicate RegisteredAlone(
      username: string, inviteRequired: bool, blank: bool, hash: Digest, now: Time, createFault: bool,
      releaseFault: bool, before: World, after: World, r: Result<string>)
  {
    if inviteRequired && blank then r == Err(InviteRequired) && after == before
    else if inviteRequired && !Usable(before, hash, now) then r == Err(InviteInvalid) && after == before
    else
      && r == (if createFault then Err(Fault) else Ok(username))
      && after.users == (if createFault then before.users else before.users + {username})
      && after.invites.Keys == before.invites.Keys
      && (forall other | other in before.invites && !(inviteRequired && other == hash) ::
            after.invites[other] == before.invites[other])
      && (inviteRequired ==>
            after.invites[hash].useCount ==
            before.invites[hash].useCount + if createFault && !releaseFault then 0 else 1)
  }

  lemma AloneIsRegistered(
      username: string, inviteRequired: bool, hash: Digest, now: Time, createFault: bool, releaseFault: bool,
      start: World, before: World, ticket: Ticket, after: World, r: Result<string>)
    requires Balanced(start) && Balanced(before) && username !in start.users && ticket !in start.tickets
    requires inviteRequired ==> Usable(start, hash, now) && before == Next(start, Step.Consume(ticket, hash, now))
    requires !inviteRequired ==> before == start
    requires r == if createFault || username in before.users then Err(Fault) else Ok(username)
    requires var step := Ending(inviteRequired, r.Ok?, releaseFault, ticket, username);
      if step.Some? then Enabled(before, step.value) && after == Next(before, step.value) else after == before
    ensures RegisteredAlone(username, inviteRequired, false, hash, now, createFault, releaseFault, start, after, r)
  {
  }
}

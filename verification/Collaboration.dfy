/** Shared conversations: who takes part, who may invite, remove and leave, and the tabs in which a
    conversation is listed. */
module Collaboration {
  import opened Text
  import Sets

  type Id = int

  datatype Role = Owner | Member

  datatype User = User(roles: set<string>, department: Option<Id>)

  datatype Seat = Seat(conversation: Id, user: Id)

  /** Conversations with their creators, and the participants' rows. */
  datatype State = State(creators: map<Id, Id>, seats: map<Seat, Role>)

  datatype Tab = Private | Collaborative | SameDept | CrossDept

  datatype Answer = Done | NotFound | Forbidden | Conflict | Invalid

  // ---- Rules ----

  predicate Takes(s: State, c: Id, u: Id) { Seat(c, u) in s.seats }

  predicate OwnerOf(s: State, c: Id, u: Id)
    requires c in s.creators
  {
    s.creators[c] == u || (Takes(s, c, u) && s.seats[Seat(c, u)] == Owner)
  }

  const ADMIN_ROLES := {"platform_administrator", "platform_auditor", "lab_director"}

  /** Administrators invite anyone; others whoever shares their department, if they have one. */
  predicate MayInvite(users: map<Id, User>, inviter: Id, target: Id)
    requires target in users
  {
    || (inviter in users && ADMIN_ROLES * users[inviter].roles != {})
    || inviter !in users
    || users[inviter].department.None?
    || users[target].department == users[inviter].department
  }

  function AddAnswer(s: State, users: map<Id, User>, c: Id, inviter: Id, target: Id): Answer {
    if c !in s.creators then NotFound
    else if !OwnerOf(s, c, inviter) then Forbidden
    else if Takes(s, c, target) then Conflict
    else if target !in users then NotFound
    else if !MayInvite(users, inviter, target) then Invalid
    else Done
  }

  function RemoveAnswer(s: State, c: Id, actor: Id, target: Id): Answer {
    if c !in s.creators then NotFound
    else if !OwnerOf(s, c, actor) then Forbidden
    else if !Takes(s, c, target) then NotFound
    else Done
  }

  function LeaveAnswer(s: State, c: Id, u: Id): Answer {
    if !Takes(s, c, u) then NotFound
    else if s.seats[Seat(c, u)] == Owner then Forbidden
    else Done
  }

  /** Someone other than u takes part. */
  predicate OthersTakePart(s: State, c: Id, u: Id) {
    exists seat :: seat in s.seats && seat.conversation == c && seat.user != u
  }

  /** The condition a tab puts on a conversation, for a user. */
  predicate InTab(s: State, tab: Tab, c: Id, u: Id)
    requires c in s.creators
  {
    match tab
    case CrossDept => false
    case Private => s.creators[c] == u && !OthersTakePart(s, c, u)
    case Collaborative => (s.creators[c] == u || Takes(s, c, u)) && OthersTakePart(s, c, u)
    case SameDept => s.creators[c] == u || Takes(s, c, u)
  }

  /** Before the row limit; `shown` are the conversations that pass the archive and keyword filters. */
  function Listed(s: State, tab: Tab, shown: set<Id>, u: Id): set<Id> {
    set c | c in s.creators && c in shown && InTab(s, tab, c, u)
  }

  // ---- The service ----

  class Service {
    var creators: map<Id, Id>
    var seats: map<Seat, Role>

    ghost function Now(): State reads this { State(creators, seats) }

    constructor ()
      ensures Now() == State(map[], map[])
    {
      creators, seats := map[], map[];
    }

    /** `create`, with a new identifier. */
    method CreateConversation(c: Id, u: Id)
      requires c !in creators
      modifies this
      ensures Now() == Apply(map[], old(Now()), Action.Create(c, u))
    {
      creators := creators[c := u];
      seats := seats[Seat(c, u) := Owner];
    }

    method AddParticipant(users: map<Id, User>, c: Id, inviter: Id, target: Id) returns (a: Answer)
      modifies this
      ensures a == AddAnswer(old(Now()), users, c, inviter, target)
      ensures Now() == Apply(users, old(Now()), Add(c, inviter, target))
    {
      if c !in creators { return NotFound; }
      var owner := creators[c] == inviter;
      if Seat(c, inviter) in seats && seats[Seat(c, inviter)] == Owner { owner := true; }
      if !owner { return Forbidden; }
      if Seat(c, target) in seats { return Conflict; }
      if target !in users { return NotFound; }
      var admin := inviter in users && ADMIN_ROLES * users[inviter].roles != {};
      if !admin {
        var department := if inviter in users then users[inviter].department else None;
        if department.Some? && users[target].department != department { return Invalid; }
      }
      seats := seats[Seat(c, target) := Member];
      a := Done;
    }

    method RemoveParticipant(c: Id, actor: Id, target: Id) returns (a: Answer)
      modifies this
      ensures a == RemoveAnswer(old(Now()), c, actor, target)
      ensures Now() == Apply(map[], old(Now()), Remove(c, actor, target))
    {
      if c !in creators { return NotFound; }
      var owner := creators[c] == actor;
      if Seat(c, actor) in seats && seats[Seat(c, actor)] == Owner { owner := true; }
      if !owner { return Forbidden; }
      if Seat(c, target) !in seats { return NotFound; }
      seats := seats - {Seat(c, target)};
      a := Done;
    }

    method LeaveConversation(c: Id, u: Id) returns (a: Answer)
      modifies this
      ensures a == LeaveAnswer(old(Now()), c, u)
      ensures Now() == Apply(map[], old(Now()), Leave(c, u))
    {
      if Seat(c, u) !in seats { return NotFound; }
      if seats[Seat(c, u)] == Owner { return Forbidden; }
      seats := seats - {Seat(c, u)};
      a := Done;
    }
  }

  // ---- Tabs in any state ----

  /** In every state, reachable or not: no conversation is in both the private and the collaborative
      tab, both lie inside the department tab, and what the department tab has beyond them is exactly
      the conversations of others in which the user is the only one left. */
  lemma TabsInAnyState(s: State, shown: set<Id>, u: Id)
    ensures Listed(s, Private, shown, u) !! Listed(s, Collaborative, shown, u)
    ensures Listed(s, Private, shown, u) + Listed(s, Collaborative, shown, u) <= Listed(s, SameDept, shown, u)
    ensures forall c ::
              c in Listed(s, SameDept, shown, u) - Listed(s, Private, shown, u) - Listed(s, Collaborative, shown, u)
              <==> c in shown && c in s.creators && Stranded(s, c, u)
    ensures Listed(s, CrossDept, shown, u) == {}
  {
  }

  /** u takes part, alone, in a conversation that someone else created. */
  predicate Stranded(s: State, c: Id, u: Id)
    requires c in s.creators
  {
    s.creators[c] != u && Takes(s, c, u) && !OthersTakePart(s, c, u)
  }

  // ---- Runs ----

  datatype Action =
    | Create(conversation: Id, user: Id)
    | Add(conversation: Id, actor: Id, target: Id)
    | Remove(conversation: Id, actor: Id, target: Id)
    | Leave(conversation: Id, user: Id)

  function Apply(users: map<Id, User>, s: State, a: Action): State {
    match a
    case Create(c, u) =>
      if c in s.creators then s else State(s.creators[c := u], s.seats[Seat(c, u) := Owner])
    case Add(c, actor, target) =>
      if AddAnswer(s, users, c, actor, target) == Done then s.(seats := s.seats[Seat(c, target) := Member]) else s
    case Remove(c, actor, target) =>
      if RemoveAnswer(s, c, actor, target) == Done then s.(seats := s.seats - {Seat(c, target)}) else s
    case Leave(c, u) =>
      if LeaveAnswer(s, c, u) == Done then s.(seats := s.seats - {Seat(c, u)}) else s
  }

  const Empty := State(map[], map[])

  function Run(users: map<Id, User>, s: State, run: seq<Action>): State
    decreases |run|
  {
    if run == [] then s else Run(users, Apply(users, s, run[0]), run[1..])
  }

  /** Seats belong to conversations, and only creators have an owner's seat. */
  ghost predicate Inv(s: State) {
    forall seat | seat in s.seats ::
      seat.conversation in s.creators && (s.seats[seat] == Owner ==> s.creators[seat.conversation] == seat.user)
  }

  lemma {:induction false} RunKeeps(users: map<Id, User>, s: State, run: seq<Action>)
    requires Inv(s)
    ensures Inv(Run(users, s, run))
    decreases |run|
  {
    if run != [] { RunKeeps(users, Apply(users, s, run[0]), run[1..]); }
  }

  /** Only the creator of a conversation can change the seats of others in it. */
  lemma OnlyCreatorsManage(users: map<Id, User>, run: seq<Action>, a: Action)
    requires a.Add? || a.Remove?
    ensures var s := Run(users, Empty, run); var t := Apply(users, s, a);
            t != s ==> a.conversation in s.creators && a.actor == s.creators[a.conversation]
  {
    RunKeeps(users, Empty, run);
  }

  ghost predicate AllInvitable(users: map<Id, User>, s: State) {
    forall seat | seat in s.seats && s.seats[seat] == Member ::
      && seat.conversation in s.creators && seat.user in users
      && MayInvite(users, s.creators[seat.conversation], seat.user)
  }

  lemma {:induction false} InvitableRun(users: map<Id, User>, s: State, run: seq<Action>)
    requires Inv(s) && AllInvitable(users, s)
    ensures AllInvitable(users, Run(users, s, run))
    decreases |run|
  {
    if run != [] {
      hide MayInvite;
      InvitableRun(users, Apply(users, s, run[0]), run[1..]);
    }
  }

  /** Over every run, with the users as they are, each member of a conversation is a user whom its
      creator may invite: one of the creator's department, unless the creator is an administrator or
      has no department. */
  lemma MembersWereInvitable(users: map<Id, User>, run: seq<Action>)
    ensures AllInvitable(users, Run(users, Empty, run))
  {
    InvitableRun(users, Empty, run);
  }

  predicate PlainMember(users: map<Id, User>, creator: Id, member: User) {
    creator !in users || users[creator].department.None? || member.department == users[creator].department
    || !(users[creator].roles !! {"platform_administrator", "platform_auditor", "lab_director"})
  }

  /** In plain terms: unless the creator is an administrator, unknown or without a department, everyone who
      was added has the creator's department. */
  lemma MembersShareDepartment(users: map<Id, User>, run: seq<Action>, seat: Seat)
    requires seat in Run(users, Empty, run).seats && Run(users, Empty, run).seats[seat] == Member
    ensures var s := Run(users, Empty, run);
            && seat.conversation in s.creators && seat.user in users
            && PlainMember(users, s.creators[seat.conversation], users[seat.user])
  {
    MembersWereInvitable(users, run);
  }

  /** And nobody else is refused: the creator can add every user who is not yet there and may be invited. */
  lemma InvitableCanJoin(users: map<Id, User>, s: State, c: Id, v: Id)
    requires c in s.creators && v in users && !Takes(s, c, v)
    requires s.creators[c] in users && users[s.creators[c]].roles !! ADMIN_ROLES
    ensures var a := Add(c, s.creators[c], v); var u := users[s.creators[c]];
            if u.department.None? || users[v].department == u.department
            then Apply(users, s, a) == s.(seats := s.seats[Seat(c, v) := Member])
            else Apply(users, s, a) == s
  {
  }

  // ---- Which states keep the tabs a partition ----

  /** Private and collaborative tab divide the department tab, whatever is shown and to whom. */
  ghost predicate Partitioned(s: State) {
    forall shown, u ::
      && Listed(s, Private, shown, u) !! Listed(s, Collaborative, shown, u)
      && Listed(s, SameDept, shown, u) == Listed(s, Private, shown, u) + Listed(s, Collaborative, shown, u)
  }

  ghost predicate StrandsNobody(s: State, c: Id)
    requires c in s.creators
  {
    forall u :: !Stranded(s, c, u)
  }

  lemma PartitionedMeans(s: State)
    ensures Partitioned(s) <==> forall c | c in s.creators :: StrandsNobody(s, c)
  {
    if Partitioned(s) {
      forall c, u | c in s.creators ensures !Stranded(s, c, u) {
        TabsInAnyState(s, {c}, u);
        assert c in {c} && Listed(s, SameDept, {c}, u) == Listed(s, Private, {c}, u) + Listed(s, Collaborative, {c}, u);
      }
    }
    if forall c | c in s.creators :: StrandsNobody(s, c) {
      forall shown, u
        ensures Listed(s, Private, shown, u) !! Listed(s, Collaborative, shown, u)
        ensures Listed(s, SameDept, shown, u) == Listed(s, Private, shown, u) + Listed(s, Collaborative, shown, u)
      {
        TabsInAnyState(s, shown, u);
        assert forall c | c in s.creators :: StrandsNobody(s, c) ==> !Stranded(s, c, u);
      }
    }
    hide Listed, Stranded;
  }

  /** The statement takes the seat of this conversation's creator away. */
  predicate RemovesCreator(s: State, a: Action, c: Id) {
    a.Remove? && a.conversation == c && c in s.creators && s.creators[c] == a.target
  }

  /** No statement of the run removes the creator of conversation c. */
  ghost predicate KeepsCreatorOf(users: map<Id, User>, s: State, run: seq<Action>, c: Id)
    decreases |run|
  {
    run == [] || (!RemovesCreator(s, run[0], c) && KeepsCreatorOf(users, Apply(users, s, run[0]), run[1..], c))
  }

  ghost predicate KeepsCreators(users: map<Id, User>, s: State, run: seq<Action>) {
    forall c :: KeepsCreatorOf(users, s, run, c)
  }

  lemma KeepsFirst(users: map<Id, User>, s: State, run: seq<Action>)
    requires run != [] && KeepsCreators(users, s, run)
    ensures forall c :: !RemovesCreator(s, run[0], c)
    ensures KeepsCreators(users, Apply(users, s, run[0]), run[1..])
  {
    hide Apply, RemovesCreator;
    forall c ensures !RemovesCreator(s, run[0], c) && KeepsCreatorOf(users, Apply(users, s, run[0]), run[1..], c) {
      assert KeepsCreatorOf(users, s, run, c);
    }
  }

  predicate CreatorOwns(s: State, c: Id)
    requires c in s.creators
  {
    Takes(s, c, s.creators[c]) && s.seats[Seat(c, s.creators[c])] == Owner
  }

  predicate Invitable(users: map<Id, User>, s: State, c: Id, v: Id)
    requires c in s.creators
  {
    v != s.creators[c] && v in users && MayInvite(users, s.creators[c], v)
  }

  /** The creator has the owner's seat, or nobody else is there or can be invited. */
  ghost predicate Secure(users: map<Id, User>, s: State, c: Id)
    requires c in s.creators
  {
    CreatorOwns(s, c) || (!OthersTakePart(s, c, s.creators[c]) && forall v :: !Invitable(users, s, c, v))
  }

  lemma SecureStep(users: map<Id, User>, s: State, a: Action, c: Id)
    requires Inv(s) && c in s.creators && Secure(users, s, c) && !RemovesCreator(s, a, c)
    ensures c in Apply(users, s, a).creators && Secure(users, Apply(users, s, a), c)
  {
    var t := Apply(users, s, a);
    assert t.creators[c] == s.creators[c];
    if CreatorOwns(s, c) {
      assert CreatorOwns(t, c);
    } else {
      if a.Add? && a.conversation == c { assert !Invitable(users, s, c, a.target); }
      forall seat | seat in t.seats && seat.conversation == c ensures seat.user == s.creators[c] {}
      assert forall v :: Invitable(users, t, c, v) <==> Invitable(users, s, c, v);
    }
  }

  lemma SecureStrandsNobody(users: map<Id, User>, s: State, c: Id)
    requires c in s.creators && Secure(users, s, c)
    ensures StrandsNobody(s, c)
  {
  }

  lemma {:induction false} SecureRun(users: map<Id, User>, s: State, run: seq<Action>, c: Id)
    requires Inv(s) && c in s.creators && Secure(users, s, c) && KeepsCreatorOf(users, s, run, c)
    ensures c in Run(users, s, run).creators && Secure(users, Run(users, s, run), c)
    decreases |run|
  {
    if run != [] {
      SecureStep(users, s, run[0], c);
      InvStep(users, s, run[0]);
      hide Apply, Secure, Inv;
      SecureRun(users, Apply(users, s, run[0]), run[1..], c);
    }
  }

  lemma InvStep(users: map<Id, User>, s: State, a: Action)
    requires Inv(s)
    ensures Inv(Apply(users, s, a))
  {
  }

  // How a creator without the owner's seat leaves a member alone.

  function Third(s: State, c: Id, v: Id): set<Seat>
    requires c in s.creators
  {
    set seat | seat in s.seats && seat.conversation == c && seat.user != v && seat.user != s.creators[c]
  }

  /** A run that strands v in c, and removes no creator. */
  ghost predicate Strands(users: map<Id, User>, s: State, run: seq<Action>, c: Id, v: Id) {
    && KeepsCreators(users, s, run)
    && c in Run(users, s, run).creators && Stranded(Run(users, s, run), c, v)
  }

  lemma StrandsFirst(users: map<Id, User>, s: State, a: Action, run: seq<Action>, c: Id, v: Id)
    requires (forall d :: !RemovesCreator(s, a, d)) && Strands(users, Apply(users, s, a), run, c, v)
    ensures Strands(users, s, [a] + run, c, v)
  {
    assert ([a] + run)[0] == a && ([a] + run)[1..] == run;
    hide Apply, Stranded, RemovesCreator;
    forall d ensures KeepsCreatorOf(users, s, [a] + run, d) {
      assert KeepsCreatorOf(users, Apply(users, s, a), run, d);
    }
  }

  /** The creator, if seated as a member, leaves v alone. */
  lemma LeaveAlone(users: map<Id, User>, s: State, c: Id, v: Id) returns (run: seq<Action>)
    requires c in s.creators && v != s.creators[c] && Takes(s, c, v) && !CreatorOwns(s, c) && Third(s, c, v) == {}
    ensures Strands(users, s, run, c, v)
  {
    var u := s.creators[c];
    run := [];
    if Takes(s, c, u) {
      var t := Apply(users, s, Leave(c, u));
      AloneNow(t, c, v);
      StrandsFirst(users, s, Leave(c, u), [], c, v);
      run := [Leave(c, u)] + [];
    } else {
      AloneNow(s, c, v);
    }
  }

  lemma AloneNow(s: State, c: Id, v: Id)
    requires c in s.creators && v != s.creators[c] && Takes(s, c, v) && !Takes(s, c, s.creators[c])
    requires Third(s, c, v) == {}
    ensures Stranded(s, c, v)
  {
    forall seat | seat in s.seats && seat.conversation == c ensures seat.user == v {
      assert seat == Seat(c, seat.user) && seat !in Third(s, c, v);
    }
  }

  /** The creator removes everybody else first. */
  lemma {:induction false} Isolate(users: map<Id, User>, s: State, c: Id, v: Id) returns (run: seq<Action>)
    requires c in s.creators && v != s.creators[c] && Takes(s, c, v) && !CreatorOwns(s, c)
    ensures Strands(users, s, run, c, v)
    decreases |Third(s, c, v)|
  {
    if Third(s, c, v) == {} {
      run := LeaveAlone(users, s, c, v);
    } else {
      var seat := Sets.Member(Third(s, c, v));
      var a := Remove(c, s.creators[c], seat.user);
      var t := Apply(users, s, a);
      RemoveOne(users, s, c, v, seat);
      hide Apply, Strands, CreatorOwns, Third;
      run := Isolate(users, t, c, v);
      StrandsFirst(users, s, a, run, c, v);
      run := [a] + run;
    }
  }

  lemma RemoveOne(users: map<Id, User>, s: State, c: Id, v: Id, seat: Seat)
    requires c in s.creators && v != s.creators[c] && Takes(s, c, v) && !CreatorOwns(s, c) && seat in Third(s, c, v)
    ensures var a := Remove(c, s.creators[c], seat.user); var t := Apply(users, s, a);
            && c in t.creators && t.creators == s.creators && Takes(t, c, v) && !CreatorOwns(t, c)
            && |Third(t, c, v)| < |Third(s, c, v)| && forall d :: !RemovesCreator(s, a, d)
  {
    var t := Apply(users, s, Remove(c, s.creators[c], seat.user));
    assert seat == Seat(c, seat.user);
    assert Third(t, c, v) == Third(s, c, v) - {seat};
    Sets.RemoveMember(Third(s, c, v), seat);
  }

  lemma StrandSomebody(users: map<Id, User>, s: State, c: Id) returns (run: seq<Action>, v: Id)
    requires c in s.creators && !Secure(users, s, c)
    ensures Strands(users, s, run, c, v)
  {
    hide Strands, MayInvite;
    if OthersTakePart(s, c, s.creators[c]) {
      var seat :| seat in s.seats && seat.conversation == c && seat.user != s.creators[c];
      v := seat.user;
      assert seat == Seat(c, v);
      run := Isolate(users, s, c, v);
    } else {
      v :| Invitable(users, s, c, v);
      var a := Add(c, s.creators[c], v);
      AddFirst(users, s, c, v);
      run := Isolate(users, Apply(users, s, a), c, v);
      StrandsFirst(users, s, a, run, c, v);
      run := [a] + run;
    }
  }

  lemma AddFirst(users: map<Id, User>, s: State, c: Id, v: Id)
    requires c in s.creators && !CreatorOwns(s, c) && !OthersTakePart(s, c, s.creators[c]) && Invitable(users, s, c, v)
    ensures var t := Apply(users, s, Add(c, s.creators[c], v));
            c in t.creators && t.creators == s.creators && Takes(t, c, v) && !CreatorOwns(t, c)
  {
    assert AddAnswer(s, users, c, s.creators[c], v) == Done;
  }

  /** From any state that a run reaches: no continuation that leaves the creator's row of a conversation
      in place strands anyone in it, exactly when the creator has the owner's seat, or nobody else is
      there and nobody else can be invited. */
  lemma StrandsNobodyExactly(users: map<Id, User>, run: seq<Action>, c: Id)
    requires c in Run(users, Empty, run).creators
    ensures var s := Run(users, Empty, run);
            (forall more | KeepsCreatorOf(users, s, more, c) ::
               c in Run(users, s, more).creators && StrandsNobody(Run(users, s, more), c))
            <==> Secure(users, s, c)
  {
    var s := Run(users, Empty, run);
    RunKeeps(users, Empty, run);
    hide Run, Secure, Inv, Stranded;
    if Secure(users, s, c) {
      forall more | KeepsCreatorOf(users, s, more, c)
        ensures c in Run(users, s, more).creators && StrandsNobody(Run(users, s, more), c)
      {
        SecureRun(users, s, more, c);
        SecureStrandsNobody(users, Run(users, s, more), c);
      }
    } else {
      var more, v := StrandSomebody(users, s, c);
      assert KeepsCreatorOf(users, s, more, c) && Stranded(Run(users, s, more), c, v);
    }
  }

  /** The same of the tabs: from any state that a run reaches, every continuation that removes no creator
      keeps them a partition exactly when each conversation is so. */
  lemma TabsPartitionExactly(users: map<Id, User>, run: seq<Action>)
    ensures var s := Run(users, Empty, run);
            (forall more | KeepsCreators(users, s, more) :: Partitioned(Run(users, s, more)))
            <==> forall c | c in s.creators :: Secure(users, s, c)
  {
    var s := Run(users, Empty, run);
    RunKeeps(users, Empty, run);
    hide Run, Secure, Inv, Partitioned, KeepsCreators;
    if c :| c in s.creators && !Secure(users, s, c) {
      var more, v := StrandSomebody(users, s, c);
      NotPartitioned(users, s, more, c, v);
    } else {
      forall more | KeepsCreators(users, s, more) ensures Partitioned(Run(users, s, more)) {
        AllSecureRun(users, s, more);
        AllSecurePartitions(users, Run(users, s, more));
      }
    }
  }

  lemma NotPartitioned(users: map<Id, User>, s: State, more: seq<Action>, c: Id, v: Id)
    requires Strands(users, s, more, c, v)
    ensures KeepsCreators(users, s, more) && !Partitioned(Run(users, s, more))
  {
    PartitionedMeans(Run(users, s, more));
  }

  ghost predicate AllSecure(users: map<Id, User>, s: State) { forall c | c in s.creators :: Secure(users, s, c) }

  lemma AllSecurePartitions(users: map<Id, User>, s: State)
    requires AllSecure(users, s)
    ensures Partitioned(s)
  {
    forall c | c in s.creators ensures StrandsNobody(s, c) { SecureStrandsNobody(users, s, c); }
    PartitionedMeans(s);
  }

  lemma AllSecureStep(users: map<Id, User>, s: State, a: Action)
    requires Inv(s) && AllSecure(users, s) && forall c :: !RemovesCreator(s, a, c)
    ensures AllSecure(users, Apply(users, s, a))
  {
    forall c | c in Apply(users, s, a).creators ensures Secure(users, Apply(users, s, a), c) {
      if c in s.creators { SecureStep(users, s, a, c); } else { assert CreatorOwns(Apply(users, s, a), c); }
    }
  }

  lemma {:induction false} AllSecureRun(users: map<Id, User>, s: State, run: seq<Action>)
    requires Inv(s) && AllSecure(users, s) && KeepsCreators(users, s, run)
    ensures AllSecure(users, Run(users, s, run))
    decreases |run|
  {
    if run != [] {
      hide AllSecure, Inv, Apply, KeepsCreators;
      KeepsFirst(users, s, run);
      AllSecureStep(users, s, run[0]);
      InvStep(users, s, run[0]);
      AllSecureRun(users, Apply(users, s, run[0]), run[1..]);
    }
  }

  /** From the start, every run that removes no creator keeps the tabs a partition: creating seats the
      creator as owner, and an owner cannot leave. */
  lemma TabsPartition(users: map<Id, User>, run: seq<Action>)
    requires KeepsCreators(users, Empty, run)
    ensures Partitioned(Run(users, Empty, run)) && CreatorsSit(Run(users, Empty, run))
  {
    TabsPartitionExactly(users, []);
    CreatorsStay(users, Empty, run);
    hide KeepsCreators, Partitioned, CreatorsSit;
  }

  ghost predicate CreatorsSit(s: State) { forall c | c in s.creators :: CreatorOwns(s, c) }

  lemma {:induction false} CreatorsStay(users: map<Id, User>, s: State, run: seq<Action>)
    requires CreatorsSit(s) && KeepsCreators(users, s, run)
    ensures CreatorsSit(Run(users, s, run))
    decreases |run|
  {
    if run != [] {
      hide Apply, CreatorsSit, RemovesCreator, KeepsCreators;
      KeepsFirst(users, s, run);
      CreatorsStayOnce(users, s, run[0]);
      CreatorsStay(users, Apply(users, s, run[0]), run[1..]);
    }
  }

  lemma CreatorsStayOnce(users: map<Id, User>, s: State, a: Action)
    requires CreatorsSit(s) && forall c :: !RemovesCreator(s, a, c)
    ensures CreatorsSit(Apply(users, s, a))
  {
    var t := Apply(users, s, a);
    forall c | c in t.creators ensures CreatorOwns(t, c) {
      if c in s.creators { assert CreatorOwns(s, c) && !RemovesCreator(s, a, c); }
    }
  }

  /** Two people in a conversation, and the second one alone in it. */
  function Both(c: Id, u: Id, v: Id): State { State(map[c := u], map[Seat(c, u) := Owner, Seat(c, v) := Member]) }

  function Alone(c: Id, u: Id, v: Id): State { State(map[c := u], map[Seat(c, v) := Member]) }

  lemma CreatedAndJoined(users: map<Id, User>, c: Id, u: Id, v: Id)
    requires u != v && v in users && MayInvite(users, u, v)
    ensures Apply(users, Apply(users, Empty, Create(c, u)), Add(c, u, v)) == Both(c, u, v)
  {
    hide MayInvite;
    var s1 := State(map[c := u], map[Seat(c, u) := Owner]);
    assert Apply(users, Empty, Create(c, u)) == s1;
    assert AddAnswer(s1, users, c, u, v) == Done;
  }

  lemma CreatorLeft(users: map<Id, User>, c: Id, u: Id, v: Id)
    requires u != v
    ensures Apply(users, Both(c, u, v), Remove(c, u, u)) == Alone(c, u, v)
  {
    assert RemoveAnswer(Both(c, u, v), c, u, u) == Done;
    assert Both(c, u, v).seats - {Seat(c, u)} == Alone(c, u, v).seats;
  }

  lemma AloneIsStranded(c: Id, u: Id, v: Id)
    requires u != v
    ensures var s := Alone(c, u, v);
            && c in s.creators && Stranded(s, c, v)
            && InTab(s, SameDept, c, v) && !InTab(s, Private, c, v) && !InTab(s, Collaborative, c, v)
  {
  }

  /** A creator can remove their own row; a member left alone then finds the conversation in the
      department tab and in neither of the others. */
  lemma RemovedCreatorStrandsMember(users: map<Id, User>, c: Id, u: Id, v: Id)
    requires u != v && v in users && MayInvite(users, u, v)
    ensures var s := Run(users, Empty, [Create(c, u), Add(c, u, v), Remove(c, u, u)]);
            && c in s.creators && Stranded(s, c, v)
            && InTab(s, SameDept, c, v) && !InTab(s, Private, c, v) && !InTab(s, Collaborative, c, v)
  {
    CreatedAndJoined(users, c, u, v);
    CreatorLeft(users, c, u, v);
    AloneIsStranded(c, u, v);
    hide Apply, Stranded, InTab, MayInvite;
    Three(users, Empty, Create(c, u), Add(c, u, v), Remove(c, u, u));
  }

  lemma Three(users: map<Id, User>, s: State, a1: Action, a2: Action, a3: Action)
    ensures Run(users, s, [a1, a2, a3]) == Apply(users, Apply(users, Apply(users, s, a1), a2), a3)
  {
    hide Apply;
    assert [a1, a2, a3][1..] == [a2, a3] && [a2, a3][1..] == [a3] && [a3][1..] == [];
    var s1 := Apply(users, s, a1);
    var s2 := Apply(users, s1, a2);
    assert Run(users, s2, [a3]) == Run(users, Apply(users, s2, a3), []);
    assert Run(users, s1, [a2, a3]) == Run(users, s2, [a3]);
    assert Run(users, s, [a1, a2, a3]) == Run(users, s1, [a2, a3]);
  }
}

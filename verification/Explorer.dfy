/**
 The administrator, the council registry and the betting entry point of contracts/explorer/src/lib.rs. A panic of the
 contract undoes the call, so an operation that fails leaves the storage as it was.
 */
module Council {
  import opened Results

  type Address = string

  const MAX_COUNCIL_MEMBERS: nat := 20

  datatype Config = Config(members: seq<Address>, threshold: nat)

  const NO_COUNCIL := Config([], 0)

  /** The stored administrator and council. */
  datatype State = State(admin: Address, council: Config)

  datatype Error = NotSigned | NotAuthorized | NotFound | AlreadyExists | LimitExceeded | InvalidThreshold

  datatype Op =
    | AddMember(caller: Address, member: Address)
    | RemoveMember(caller: Address, member: Address)
    | SetThreshold(caller: Address, threshold: nat)
    | TransferAdmin(caller: Address, newAdmin: Address)

  datatype Call = Call(signers: set<Address>, op: Op)

  /** The place of the first occurrence, or the length if there is none. */
  function FirstIndexOf(s: seq<Address>, x: Address): (i: nat)
    ensures i <= |s| && (i < |s| ==> s[i] == x) && forall j :: 0 <= j < i ==> s[j] != x
  {
    if s == [] || s[0] == x then 0 else 1 + FirstIndexOf(s[1..], x)
  }

  function Without(s: seq<Address>, i: nat): seq<Address>
    requires i < |s|
  {
    s[..i] + s[i + 1..]
  }

  /** What the administrator's call does to the council. */
  function Change(cfg: Config, op: Op): (Config, Option<Error>)
  {
    match op
    case AddMember(_, member) =>
      if member in cfg.members then (cfg, Some(AlreadyExists))
      else if |cfg.members| >= MAX_COUNCIL_MEMBERS then (cfg, Some(LimitExceeded))
      else (Config(cfg.members + [member], if cfg.threshold == 0 then 1 else cfg.threshold), None)
    case RemoveMember(_, member) =>
      var idx := FirstIndexOf(cfg.members, member);
      if idx == |cfg.members| then (cfg, Some(NotFound))
      else if |cfg.members| - 1 < cfg.threshold then (cfg, Some(InvalidThreshold))
      else
        var members := Without(cfg.members, idx);
        (Config(members, if members == [] then 0 else cfg.threshold), None)
    case SetThreshold(_, threshold) =>
      if threshold == 0 || threshold > |cfg.members| then (cfg, Some(InvalidThreshold))
      else (cfg.(threshold := threshold), None)
    case TransferAdmin(_, _) => (cfg, None)
  }

  predicate Signed(c: Call)
  {
    c.op.caller in c.signers && (c.op.TransferAdmin? ==> c.op.newAdmin in c.signers)
  }

  function Step(s: State, c: Call): (State, Option<Error>)
  {
    if !Signed(c) then (s, Some(NotSigned))
    else if c.op.caller != s.admin then (s, Some(NotAuthorized))
    else
      var (council, error) := Change(s.council, c.op);
      (State(if c.op.TransferAdmin? then c.op.newAdmin else s.admin, council), error)
  }

  function Run(admin: Address, calls: seq<Call>): State
  {
    if calls == [] then State(admin, NO_COUNCIL) else Step(Run(admin, calls[..|calls| - 1]), calls[|calls| - 1]).0
  }

  ghost predicate Distinct(s: seq<Address>) { forall i, j :: 0 <= i < j < |s| ==> s[i] != s[j] }

  ghost predicate Valid(cfg: Config)
  {
    && Distinct(cfg.members)
    && |cfg.members| <= MAX_COUNCIL_MEMBERS
    && (if cfg.members == [] then cfg.threshold == 0 else 1 <= cfg.threshold <= |cfg.members|)
  }

  function Members(cfg: Config): set<Address> { set m | m in cfg.members }

  ghost predicate MayAct(s: State, c: Call) { Signed(c) && c.op.caller == s.admin }

  /**
   What one call does to a valid council: it stays valid, its member set changes by the one member named
   and no other, and exactly the calls that would leave fewer members than approvals needed are refused.
   Only the administrator's signed calls do anything, and only a transfer names another administrator.
   */
  lemma StepKeepsValid(s: State, c: Call)
    requires Valid(s.council)
    ensures Valid(Step(s, c).0.council)
    ensures var (after, error) := Step(s, c);
            var members, members' := Members(s.council), Members(after.council);
            && (error.Some? ==> after == s)
            && (error.None? ==> MayAct(s, c))
            && (after.admin == if c.op.TransferAdmin? && error.None? then c.op.newAdmin else s.admin)
            && match c.op
               case AddMember(_, m) =>
                 && (error.None? <==> MayAct(s, c) && m !in members && |s.council.members| < MAX_COUNCIL_MEMBERS)
                 && members' == (if error.None? then members + {m} else members)
                 && after.council.threshold ==
                    (if error.None? && s.council.members == [] then 1 else s.council.threshold)
               case RemoveMember(_, m) =>
                 && (error.None? <==> MayAct(s, c) && m in members && |s.council.members| > s.council.threshold)
                 && members' == (if error.None? then members - {m} else members)
                 && after.council.threshold == s.council.threshold
               case SetThreshold(_, t) =>
                 && (error.None? <==> MayAct(s, c) && 1 <= t <= |s.council.members|)
                 && after.council.members == s.council.members
                 && after.council.threshold == (if error.None? then t else s.council.threshold)
               case TransferAdmin(_, _) =>
                 (error.None? <==> MayAct(s, c)) && after.council == s.council
  {
    if c.op.RemoveMember? {
      var i := FirstIndexOf(s.council.members, c.op.member);
      if i < |s.council.members| { WithoutRemoves(s.council.members, i); }
    }
  }

  lemma WithoutRemoves(s: seq<Address>, i: nat)
    requires Distinct(s) && i < |s|
    ensures Distinct(Without(s, i)) && |Without(s, i)| == |s| - 1
    ensures (set m | m in Without(s, i)) == (set m | m in s) - {s[i]}
  {
    var rest := Without(s, i);
    assert forall k :: 0 <= k < |rest| ==> rest[k] == s[if k < i then k else k + 1];
    forall m | m in s && m != s[i] ensures m in rest {
      var k :| 0 <= k < |s| && s[k] == m;
      assert rest[if k < i then k else k - 1] == m;
    }
  }

  /** Why a call is refused: the first of these reasons that applies. */
  function Refusal(s: State, c: Call): Option<Error>
  {
    if !Signed(c) then Some(NotSigned)
    else if c.op.caller != s.admin then Some(NotAuthorized)
    else
      match c.op
      case AddMember(_, m) =>
        if m in Members(s.council) then Some(AlreadyExists)
        else if |s.council.members| >= 20 then Some(LimitExceeded) else None
      case RemoveMember(_, m) =>
        if m !in Members(s.council) then Some(NotFound)
        else if |s.council.members| <= s.council.threshold then Some(InvalidThreshold) else None
      case SetThreshold(_, t) => if 1 <= t <= |s.council.members| then None else Some(InvalidThreshold)
      case TransferAdmin(_, _) => None
  }

  lemma RefusedIff(s: State, c: Call)
    ensures Step(s, c).1 == Refusal(s, c)
  {
  }

  /** The threshold that was last set, or 1 from the first member on; 0 while there has been no member. */
  function LastThreshold(admin: Address, calls: seq<Call>): nat
  {
    if calls == [] then 0 else
      var early, c := calls[..|calls| - 1], calls[|calls| - 1];
      if Step(Run(admin, early), c).1.Some? then LastThreshold(admin, early)
      else
        match c.op
        case SetThreshold(_, t) => t
        case AddMember(_, _) => if LastThreshold(admin, early) == 0 then 1 else LastThreshold(admin, early)
        case _ => LastThreshold(admin, early)
  }

  lemma {:induction false} ThresholdIsLastSet(admin: Address, calls: seq<Call>)
    ensures Run(admin, calls).council.threshold == LastThreshold(admin, calls)
  {
    if calls != [] {
      ThresholdIsLastSet(admin, calls[..|calls| - 1]);
      CouncilAlwaysValid(admin, calls[..|calls| - 1]);
      StepKeepsValid(Run(admin, calls[..|calls| - 1]), calls[|calls| - 1]);
    }
  }

  /** In every run: distinct members, at most 20, and a threshold that those members can reach. */
  lemma {:induction false} CouncilAlwaysValid(admin: Address, calls: seq<Call>)
    ensures Valid(Run(admin, calls).council)
  {
    if calls != [] {
      CouncilAlwaysValid(admin, calls[..|calls| - 1]);
      StepKeepsValid(Run(admin, calls[..|calls| - 1]), calls[|calls| - 1]);
    }
  }

  /** A council that has had a member is never empty again, whatever any administrator tries. */
  lemma {:induction false} NeverEmptyAgain(admin: Address, calls: seq<Call>, i: nat)
    requires i <= |calls| && Run(admin, calls[..i]).council.members != []
    ensures Run(admin, calls).council.members != []
  {
    if i < |calls| {
      var early := calls[..|calls| - 1];
      assert early[..i] == calls[..i];
      NeverEmptyAgain(admin, early, i);
      CouncilAlwaysValid(admin, early);
      StepKeepsValid(Run(admin, early), calls[|calls| - 1]);
    } else {
      assert calls[..i] == calls;
    }
  }

  /** Call `i` hands the contract over to `who`, and both sides have signed it. */
  ghost predicate HandedOver(admin: Address, calls: seq<Call>, i: nat, who: Address)
  {
    && i < |calls| && calls[i].op == TransferAdmin(Run(admin, calls[..i]).admin, who)
    && Run(admin, calls[..i]).admin in calls[i].signers && who in calls[i].signers
  }

  /** Nobody becomes administrator without having signed a transfer together with the one before. */
  lemma {:induction false} AdminWasHandedOver(admin: Address, calls: seq<Call>) returns (i: nat)
    ensures var who := Run(admin, calls).admin; who == admin || HandedOver(admin, calls, i, who)
  {
    i := 0;
    if calls != [] {
      var n := |calls| - 1;
      var early := calls[..n];
      i := AdminWasHandedOver(admin, early);
      CouncilAlwaysValid(admin, early);
      StepKeepsValid(Run(admin, early), calls[n]);
      if i < n { assert early[..i] == calls[..i]; }
      if Run(admin, calls).admin != Run(admin, early).admin { i := n; }
    }
  }
}

module ExplorerContract {
  import opened Results
  import opened Council
  import Odds

  class Explorer {
    var admin: Address
    var council: Config
    var marketPools: Odds.Pools

    ghost function State(): Council.State
      reads this
    {
      Council.State(admin, council)
    }

    constructor (admin: Address)
      ensures State() == Run(admin, []) && marketPools == map[]
    {
      this.admin := admin;
      council := NO_COUNCIL;
      marketPools := map[];
    }

    method TransferAdmin(signers: set<Address>, currentAdmin: Address, newAdmin: Address)
      returns (error: Option<Error>)
      modifies `admin
      ensures (State(), error) == Step(old(State()), Call(signers, Op.TransferAdmin(currentAdmin, newAdmin)))
    {
      if currentAdmin !in signers || newAdmin !in signers { return Some(NotSigned); }
      if currentAdmin != admin { return Some(NotAuthorized); }
      admin := newAdmin;
      return None;
    }

    method AddCouncilMember(signers: set<Address>, caller: Address, newMember: Address)
      returns (error: Option<Error>)
      requires Valid(council)
      modifies `council
      ensures Valid(council) && (State(), error) == Step(old(State()), Call(signers, AddMember(caller, newMember)))
    {
      StepKeepsValid(State(), Call(signers, AddMember(caller, newMember)));
      if caller !in signers { return Some(NotSigned); }
      if caller != admin { return Some(NotAuthorized); }
      var cfg := council;
      if newMember in cfg.members { return Some(AlreadyExists); }
      if |cfg.members| >= MAX_COUNCIL_MEMBERS { return Some(LimitExceeded); }
      cfg := cfg.(members := cfg.members + [newMember]);
      if cfg.threshold == 0 { cfg := cfg.(threshold := 1); }
      council := cfg;
      return None;
    }

    method RemoveCouncilMember(signers: set<Address>, caller: Address, member: Address)
      returns (error: Option<Error>)
      requires Valid(council)
      modifies `council
      ensures Valid(council) && (State(), error) == Step(old(State()), Call(signers, RemoveMember(caller, member)))
    {
      ghost var before := State();
      if caller !in signers { return Some(NotSigned); }
      if caller != admin { return Some(NotAuthorized); }
      var cfg := council;
      var idx := FirstIndexOf(cfg.members, member);
      if idx == |cfg.members| { return Some(NotFound); }
      if |cfg.members| - 1 < cfg.threshold { return Some(InvalidThreshold); }
      cfg := cfg.(members := Without(cfg.members, idx));
      if cfg.members == [] { cfg := cfg.(threshold := NO_COUNCIL.threshold); }
      council := cfg;
      StepKeepsValid(before, Call(signers, RemoveMember(caller, member)));
      return None;
    }

    method SetCouncilThreshold(signers: set<Address>, caller: Address, threshold: nat)
      returns (error: Option<Error>)
      requires Valid(council)
      modifies `council
      ensures Valid(council) && (State(), error) == Step(old(State()), Call(signers, SetThreshold(caller, threshold)))
    {
      StepKeepsValid(State(), Call(signers, SetThreshold(caller, threshold)));
      if caller !in signers { return Some(NotSigned); }
      if caller != admin { return Some(NotAuthorized); }
      var cfg := council;
      if threshold == 0 || threshold > |cfg.members| { return Some(InvalidThreshold); }
      cfg := cfg.(threshold := threshold);
      council := cfg;
      return None;
    }

    method PlaceBet(signed: bool, marketId: nat, isYes: bool, amount: int, minAcceptableOdds: int)
      returns (r: Result<int, Odds.Error>)
      modifies `marketPools
      ensures (marketPools, r) ==
              Odds.Place(old(marketPools), Odds.Bet(signed, marketId, isYes, amount, minAcceptableOdds))
    {
      if !signed { return Err(Odds.NotAuthorized); }
      if amount <= 0 { return Err(Odds.LimitExceeded); }
      var pool := if marketId in marketPools then marketPools[marketId] else Odds.Pool(0, 0);
      var currentOdds := Odds.ComputeOdds(pool.totalYes, pool.totalNo, isYes);
      if currentOdds < minAcceptableOdds { return Err(Odds.SlippageExceeded); }
      if isYes {
        pool := pool.(totalYes := Odds.Saturate(pool.totalYes + amount));
      } else {
        pool := pool.(totalNo := Odds.Saturate(pool.totalNo + amount));
      }
      marketPools := marketPools[marketId := pool];
      return Ok(currentOdds);
    }
  }
}

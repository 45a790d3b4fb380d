/** Image checks: which images get an init container that pulls them, with which policy, and what
    becomes of the app containers' own policies. */
module ImageCheck {
  import opened Options

  datatype Policy = Unset | Never | IfNotPresent | Always | Other(name: string)

  datatype Container = Container(name: string, image: string, policy: Policy)

  datatype Check = Check(policy: Policy, pinned: bool)

  datatype InvalidRef = InvalidRef(container: string, image: string)

  /** `parse` reads an image reference: None for an invalid one, else whether it pins a digest. */
  datatype Settings = Settings(image: string, pullPolicy: Policy, checkPolicy: Policy, skipChecks: bool, parse: string -> Option<bool>)

  // ---- Policies ----------------------------------------------------------

  /** How much a policy is preferred; a policy outside the table counts 0. */
  function Rank(p: Policy): nat {
    match p
    case Always => 3
    case IfNotPresent => 2
    case Never => 1
    case _ => 0
  }

  function Or(p: Policy, q: Policy): Policy {
    if p.Unset? then q else p
  }

  function DefaultPolicy(pinned: bool): Policy {
    if pinned then IfNotPresent else Always
  }

  /** The policy the image would be pulled with if there was only one container. */
  function Nominal(cfg: Settings, c: Container, pinned: bool): Policy {
    Or(c.policy, Or(cfg.checkPolicy, Or(cfg.pullPolicy, DefaultPolicy(pinned))))
  }

  /** The container's own policy, before anything is pulled for it. */
  function Own(cfg: Settings, c: Container, pinned: bool): Policy {
    Or(c.policy, Or(cfg.pullPolicy, DefaultPolicy(pinned)))
  }

  function Adjusted(cfg: Settings, c: Container): Container {
    match cfg.parse(c.image)
    case None => c
    case Some(pinned) =>
      c.(policy := if Nominal(cfg, c, pinned).Always? && Own(cfg, c, pinned).Always? then IfNotPresent else Own(cfg, c, pinned))
  }

  function AdjustAll(cfg: Settings, cs: seq<Container>): seq<Container> {
    seq(|cs|, i requires 0 <= i < |cs| => Adjusted(cfg, cs[i]))
  }

  function InvalidRefs(cfg: Settings, cs: seq<Container>): seq<InvalidRef> {
    if cs == [] then []
    else
      var c := cs[|cs| - 1];
      InvalidRefs(cfg, cs[..|cs| - 1]) + if cfg.parse(c.image).None? then [InvalidRef(c.name, c.image)] else []
  }

  ghost predicate AllValid(cfg: Settings, cs: seq<Container>) {
    forall c :: c in cs ==> cfg.parse(c.image).Some?
  }

  lemma {:induction false} NoInvalidRefs(cfg: Settings, cs: seq<Container>)
    ensures InvalidRefs(cfg, cs) == [] <==> AllValid(cfg, cs)
  {
    if cs != [] {
      NoInvalidRefs(cfg, cs[..|cs| - 1]);
      assert cs == cs[..|cs| - 1] + [cs[|cs| - 1]];
    }
  }

  /** What is reported is exactly the containers whose image cannot be read. */
  lemma {:induction false} InvalidRefsAreReported(cfg: Settings, cs: seq<Container>, ref: InvalidRef)
    ensures ref in InvalidRefs(cfg, cs) <==> exists c :: c in cs && cfg.parse(c.image).None? && ref == InvalidRef(c.name, c.image)
  {
    if cs != [] {
      InvalidRefsAreReported(cfg, cs[..|cs| - 1], ref);
      assert cs == cs[..|cs| - 1] + [cs[|cs| - 1]];
    }
  }

  // ---- Selecting ---------------------------------------------------------

  function Consider(cfg: Settings, checks: map<string, Check>, c: Container): map<string, Check> {
    match cfg.parse(c.image)
    case None => checks
    case Some(pinned) =>
      var nominal := Nominal(cfg, c, pinned);
      if c.image !in checks || Rank(nominal) > Rank(checks[c.image].policy) then checks[c.image := Check(nominal, pinned)]
      else checks
  }

  function Selected(cfg: Settings, cs: seq<Container>): map<string, Check> {
    if cs == [] then map[] else Consider(cfg, Selected(cfg, cs[..|cs| - 1]), cs[|cs| - 1])
  }

  /** Some container that uses the image asks for this check. */
  ghost predicate Requested(cfg: Settings, cs: seq<Container>, image: string, check: Check) {
    exists c :: c in cs && c.image == image && cfg.parse(image) == Some(check.pinned) && check.policy == Nominal(cfg, c, check.pinned)
  }

  lemma RequestedNext(cfg: Settings, cs: seq<Container>, c: Container, image: string, check: Check)
    ensures Requested(cfg, cs, image, check) ==> Requested(cfg, cs + [c], image, check)
    ensures c.image == image && cfg.parse(image) == Some(check.pinned) && check.policy == Nominal(cfg, c, check.pinned) ==>
              Requested(cfg, cs + [c], image, check)
  {
  }

  lemma ConsiderCases(cfg: Settings, checks: map<string, Check>, c: Container, image: string)
    requires image in Consider(cfg, checks, c)
    ensures var check := Consider(cfg, checks, c)[image];
            || (image in checks && check == checks[image])
            || (c.image == image && cfg.parse(image) == Some(check.pinned) && check.policy == Nominal(cfg, c, check.pinned))
  {
  }

  /** The images of the app containers are checked, each with the strongest nominal policy of the
      containers that use it. */
  lemma {:induction false} SelectedIsStrongest(cfg: Settings, cs: seq<Container>)
    ensures forall c :: c in cs && cfg.parse(c.image).Some? ==>
              c.image in Selected(cfg, cs)
              && Rank(Nominal(cfg, c, cfg.parse(c.image).value)) <= Rank(Selected(cfg, cs)[c.image].policy)
    ensures forall image :: image in Selected(cfg, cs) ==> Requested(cfg, cs, image, Selected(cfg, cs)[image])
  {
    if cs != [] {
      var front, last := cs[..|cs| - 1], cs[|cs| - 1];
      SelectedIsStrongest(cfg, front);
      assert cs == front + [last];
      forall c | c in cs && cfg.parse(c.image).Some?
        ensures c.image in Selected(cfg, cs) && Rank(Nominal(cfg, c, cfg.parse(c.image).value)) <= Rank(Selected(cfg, cs)[c.image].policy)
      {
        if c != last { assert c in front; }
      }
      forall image | image in Selected(cfg, cs) ensures Requested(cfg, cs, image, Selected(cfg, cs)[image]) {
        ConsiderCases(cfg, Selected(cfg, front), last, image);
        RequestedNext(cfg, front, last, image, Selected(cfg, cs)[image]);
      }
    }
  }

  /** One container: its own policy from now on, and what it adds to the checks. */
  method SelectOne(cfg: Settings, c: Container, checks: map<string, Check>, invalid: seq<InvalidRef>)
    returns (c': Container, checks': map<string, Check>, invalid': seq<InvalidRef>)
    ensures c' == Adjusted(cfg, c) && checks' == Consider(cfg, checks, c)
    ensures invalid' == invalid + if cfg.parse(c.image).None? then [InvalidRef(c.name, c.image)] else []
  {
    c', checks', invalid' := c, checks, invalid;
    var ref := cfg.parse(c.image);
    if ref.None? {
      invalid' := invalid + [InvalidRef(c.name, c.image)];
      return;
    }
    var nominal := Or(Or(Or(c.policy, cfg.checkPolicy), cfg.pullPolicy), DefaultPolicy(ref.value));
    var policy := Or(Or(c.policy, cfg.pullPolicy), DefaultPolicy(ref.value));
    c' := c.(policy := if nominal == Always && policy == Always then IfNotPresent else policy);
    if c.image !in checks {
      checks' := checks[c.image := Check(nominal, ref.value)];
      return;
    }
    if Rank(nominal) > Rank(checks[c.image].policy) {
      checks' := checks[c.image := Check(nominal, ref.value)];
    }
  }

  /** Chooses the checks and rewrites the containers' policies in place. */
  method SelectImagesToCheck(cfg: Settings, containers: array<Container>) returns (checks: map<string, Check>, invalid: seq<InvalidRef>)
    modifies containers
    ensures checks == Selected(cfg, old(containers[..]))
    ensures invalid == InvalidRefs(cfg, old(containers[..]))
    ensures containers[..] == AdjustAll(cfg, old(containers[..]))
  {
    checks, invalid := map[], [];
    ghost var was := containers[..];
    for i := 0 to containers.Length
      invariant checks == Selected(cfg, was[..i]) && invalid == InvalidRefs(cfg, was[..i])
      invariant forall k :: 0 <= k < i ==> containers[k] == Adjusted(cfg, was[k])
      invariant forall k :: i <= k < containers.Length ==> containers[k] == was[k]
    {
      assert was[..i + 1][..i] == was[..i];
      containers[i], checks, invalid := SelectOne(cfg, containers[i], checks, invalid);
    }
    assert was[..containers.Length] == was;
  }

  // ---- Culling -----------------------------------------------------------

  /** An init container that pulls its image at least as eagerly as the check would. */
  predicate Covers(cfg: Settings, d: Container, image: string, policy: Policy) {
    d.image == image && cfg.parse(d.image).Some? && Rank(d.policy) >= Rank(policy)
  }

  ghost predicate Covered(cfg: Settings, cs: seq<Container>, image: string, policy: Policy) {
    exists d :: d in cs && Covers(cfg, d, image, policy)
  }

  ghost function Culled(cfg: Settings, checks: map<string, Check>, cs: seq<Container>): map<string, Check> {
    map image | image in checks && !Covered(cfg, cs, image, checks[image].policy) :: checks[image]
  }

  lemma CoveredNext(cfg: Settings, cs: seq<Container>, d: Container, image: string, policy: Policy)
    ensures Covered(cfg, cs + [d], image, policy) <==> Covered(cfg, cs, image, policy) || Covers(cfg, d, image, policy)
  {
  }

  lemma CoveredByOne(cfg: Settings, d: Container, image: string, policy: Policy)
    ensures Covered(cfg, [d], image, policy) <==> Covers(cfg, d, image, policy)
  {
    CoveredNext(cfg, [], d, image, policy);
    assert [] + [d] == [d];
  }

  lemma CulledNext(cfg: Settings, checks: map<string, Check>, cs: seq<Container>, d: Container)
    ensures Culled(cfg, checks, cs + [d]) == Culled(cfg, Culled(cfg, checks, cs), [d])
  {
  }

  /** Drops the check that an existing init container makes redundant. */
  method CullCheckForExisting(cfg: Settings, checks: map<string, Check>, invalid: seq<InvalidRef>, c: Container)
    returns (checks': map<string, Check>, invalid': seq<InvalidRef>)
    ensures checks' == Culled(cfg, checks, [c])
    ensures invalid' == invalid + InvalidRefs(cfg, [c])
  {
    checks', invalid' := checks, invalid;
    forall image, p ensures Covered(cfg, [c], image, p) <==> Covers(cfg, c, image, p) {
      CoveredByOne(cfg, c, image, p);
    }
    assert InvalidRefs(cfg, [c][..0]) == [];
    if cfg.parse(c.image).None? {
      return checks, invalid + [InvalidRef(c.name, c.image)];
    }
    if c.image !in checks {
      return;
    }
    if Rank(c.policy) >= Rank(checks[c.image].policy) {
      checks' := checks - {c.image};
    }
  }

  // ---- Making the containers ---------------------------------------------

  function Itoa(n: nat): (digits: string)
    ensures |digits| > 0 && (n >= 10 ==> |digits| > 1)
  {
    var digit := [('0' as int + n % 10) as char];
    if n < 10 then digit else Itoa(n / 10) + digit
  }

  lemma {:induction false} ItoaInjective(m: nat, n: nat)
    requires Itoa(m) == Itoa(n)
    ensures m == n
  {
    assert Itoa(m)[|Itoa(m)| - 1] == Itoa(n)[|Itoa(n)| - 1];
    if m >= 10 && n >= 10 {
      assert Itoa(m)[..|Itoa(m)| - 1] == Itoa(m / 10) && Itoa(n)[..|Itoa(n)| - 1] == Itoa(n / 10);
      ItoaInjective(m / 10, n / 10);
    }
  }

  const PREFIX := "imagecheck-"

  function CheckPolicy(cfg: Settings, check: Check): Policy {
    Or(check.policy, Or(cfg.checkPolicy, DefaultPolicy(check.pinned)))
  }

  ghost predicate Uses(cs: seq<Container>, image: string) {
    exists c :: c in cs && c.image == image
  }

  lemma UsesNext(cs: seq<Container>, c: Container, image: string)
    ensures Uses(cs + [c], image) <==> Uses(cs, image) || c.image == image
  {
  }

  /** One container per check, in some order. */
  ghost predicate ChecksAll(cfg: Settings, checks: map<string, Check>, cs: seq<Container>) {
    && (forall c :: c in cs ==> c.image in checks && c.policy == CheckPolicy(cfg, checks[c.image]))
    && (forall image :: image in checks ==> Uses(cs, image))
    && DistinctImages(cs) && (forall i, j :: 0 <= i < j < |cs| ==> cs[i].name != cs[j].name)
  }

  ghost predicate Numbered(cs: seq<Container>) {
    forall i :: 0 <= i < |cs| ==> cs[i].name == PREFIX + Itoa(i)
  }

  lemma NumberedNamesDiffer(cs: seq<Container>, i: nat, j: nat)
    requires Numbered(cs) && i < j < |cs|
    ensures cs[i].name != cs[j].name
  {
    if cs[i].name == cs[j].name {
      assert Itoa(i) == cs[i].name[|PREFIX|..] == cs[j].name[|PREFIX|..] == Itoa(j);
      ItoaInjective(i, j);
    }
  }

  ghost predicate DistinctImages(cs: seq<Container>) {
    forall i, j :: 0 <= i < j < |cs| ==> cs[i].image != cs[j].image
  }

  method MakeImageCheckContainers(cfg: Settings, checks: map<string, Check>) returns (cs: seq<Container>)
    ensures ChecksAll(cfg, checks, cs)
  {
    cs := [];
    var left := checks.Keys;
    while left != {}
      invariant left <= checks.Keys
      invariant forall c :: c in cs ==> c.image in checks.Keys - left && c.policy == CheckPolicy(cfg, checks[c.image])
      invariant forall image :: image in checks && image !in left ==> Uses(cs, image)
      invariant Numbered(cs) && DistinctImages(cs)
      decreases |left|
    {
      // any order of the map
      var image :| image in left;
      var c := Container(PREFIX + Itoa(|cs|), image, CheckPolicy(cfg, checks[image]));
      forall i | 0 <= i < |cs| ensures cs[i].image != image { assert cs[i] in cs; }
      forall other ensures Uses(cs + [c], other) <==> Uses(cs, other) || other == image {
        UsesNext(cs, c, other);
      }
      cs, left := cs + [c], left - {image};
    }
    forall i, j | 0 <= i < j < |cs| ensures cs[i].name != cs[j].name { NumberedNamesDiffer(cs, i, j); }
  }

  // ---- The init containers of a pod --------------------------------------

  datatype Plan = Planned(init: seq<Container>) | Rejected(invalid: seq<InvalidRef>)

  const COPY_AGENT := "copy-agent"

  function Setup(cfg: Settings): Container {
    Container(COPY_AGENT, cfg.image, Or(cfg.pullPolicy, DefaultPolicy(cfg.parse(cfg.image) == Some(true))))
  }

  /** The containers a plan for app containers cs adds in front of the user's init containers. */
  ghost predicate Checked(cfg: Settings, cs: seq<Container>, existing: seq<Container>, made: seq<Container>) {
    if cfg.skipChecks then made == [] else ChecksAll(cfg, Culled(cfg, Selected(cfg, cs), existing), made)
  }

  ghost predicate IsPlan(cfg: Settings, cs: seq<Container>, user: seq<Container>, init: seq<Container>) {
    exists made :: Checked(cfg, cs, [Setup(cfg)] + user, made) && init == [Setup(cfg)] + made + user
  }

  lemma {:induction false} InvalidRefsAppend(cfg: Settings, a: seq<Container>, b: seq<Container>)
    ensures InvalidRefs(cfg, a + b) == InvalidRefs(cfg, a) + InvalidRefs(cfg, b)
    decreases |b|
  {
    if b == [] {
      assert a + b == a;
    } else {
      InvalidRefsAppend(cfg, a, b[..|b| - 1]);
      assert (a + b)[..|a + b| - 1] == a + b[..|b| - 1];
    }
  }

  /** Culls against the container that sets up the workspace, then against the user's. */
  method CullForAll(cfg: Settings, selected: map<string, Check>, selectInvalid: seq<InvalidRef>, setup: Container, user: seq<Container>)
    returns (checks: map<string, Check>, invalid: seq<InvalidRef>)
    ensures checks == Culled(cfg, selected, [setup] + user)
    ensures invalid == selectInvalid + InvalidRefs(cfg, [setup] + user)
  {
    checks, invalid := CullCheckForExisting(cfg, selected, selectInvalid, setup);
    assert [setup] + user[..0] == [setup];
    for i := 0 to |user|
      invariant checks == Culled(cfg, selected, [setup] + user[..i])
      invariant invalid == selectInvalid + InvalidRefs(cfg, [setup] + user[..i])
    {
      CulledNext(cfg, selected, [setup] + user[..i], user[i]);
      InvalidRefsAppend(cfg, [setup] + user[..i], [user[i]]);
      assert [setup] + user[..i + 1] == [setup] + user[..i] + [user[i]];
      checks, invalid := CullCheckForExisting(cfg, checks, invalid, user[i]);
    }
    assert user[..|user|] == user;
  }

  /** The init containers, or every invalid reference among the app and init containers. */
  method PlanInitContainers(cfg: Settings, containers: array<Container>, user: seq<Container>) returns (plan: Plan)
    modifies containers
    ensures containers[..] == AdjustAll(cfg, old(containers[..]))
    ensures plan.Planned? <==> AllValid(cfg, old(containers[..])) && AllValid(cfg, [Setup(cfg)] + user)
    ensures plan.Planned? ==> IsPlan(cfg, old(containers[..]), user, plan.init)
    ensures plan.Rejected? ==> plan.invalid == InvalidRefs(cfg, old(containers[..])) + InvalidRefs(cfg, [Setup(cfg)] + user)
  {
    ghost var was := containers[..];
    var setup := Setup(cfg);
    var checks, invalid := SelectImagesToCheck(cfg, containers);
    checks, invalid := CullForAll(cfg, checks, invalid, setup, user);
    NoInvalidRefs(cfg, was);
    NoInvalidRefs(cfg, [setup] + user);
    if |invalid| > 0 {
      return Rejected(invalid);
    }
    var made := [];
    if !cfg.skipChecks {
      made := MakeImageCheckContainers(cfg, checks);
    }
    assert Checked(cfg, was, [setup] + user, made);
    return Planned([setup] + made + user);
  }

  // ---- What a plan guarantees --------------------------------------------

  /** Some init container uses the image, with at least the given preference. */
  ghost predicate Pulls(init: seq<Container>, image: string, rank: nat) {
    exists d :: d in init && d.image == image && Rank(d.policy) >= rank
  }

  /** A selected check ends up as an init container, or an existing one covers it. */
  lemma SelectedIsPulled(cfg: Settings, cs: seq<Container>, user: seq<Container>, init: seq<Container>, image: string)
    requires !cfg.skipChecks && IsPlan(cfg, cs, user, init) && image in Selected(cfg, cs)
    requires !Selected(cfg, cs)[image].policy.Unset?
    ensures Pulls(init, image, Rank(Selected(cfg, cs)[image].policy))
  {
    var check := Selected(cfg, cs)[image];
    var existing := [Setup(cfg)] + user;
    var made :| Checked(cfg, cs, existing, made) && init == [Setup(cfg)] + made + user;
    if Covered(cfg, existing, image, check.policy) {
      var d :| d in existing && Covers(cfg, d, image, check.policy);
      assert d in init;
    } else {
      assert Uses(made, image);
      var d :| d in made && d.image == image;
      assert d in init && d.policy == check.policy;
    }
  }

  /** Whatever the order of the map: every app container's image is used by an init container that
      pulls at least as eagerly as the strongest nominal policy for that image asks for. */
  lemma Coverage(cfg: Settings, cs: seq<Container>, user: seq<Container>, init: seq<Container>, c: Container)
    requires AllValid(cfg, cs) && !cfg.skipChecks && IsPlan(cfg, cs, user, init) && c in cs
    ensures exists strongest: nat :: Pulls(init, c.image, strongest)
              && forall e :: e in cs && e.image == c.image ==> Rank(Nominal(cfg, e, cfg.parse(e.image).value)) <= strongest
  {
    SelectedIsStrongest(cfg, cs);
    var check := Selected(cfg, cs)[c.image];
    assert Requested(cfg, cs, c.image, check);
    SelectedIsPulled(cfg, cs, user, init, c.image);
    assert Pulls(init, c.image, Rank(check.policy));
  }

  /** No check repeats what an existing init container does. */
  lemma NoRedundantCheck(cfg: Settings, cs: seq<Container>, existing: seq<Container>, made: seq<Container>, c: Container, d: Container)
    requires AllValid(cfg, existing) && Checked(cfg, cs, existing, made)
    requires c in made && d in existing && d.image == c.image
    ensures Rank(d.policy) < Rank(c.policy)
  {
    SelectedIsStrongest(cfg, cs);
    assert !Covered(cfg, existing, c.image, Selected(cfg, cs)[c.image].policy);
  }

  // ---- In terms of the inputs --------------------------------------------

  /** The order of preference: always, if not present, never, and then whatever is not in the table. */
  predicate AsEager(p: Policy, q: Policy) {
    p.Always? || q.Unset? || q.Other? || (p.IfNotPresent? && !q.Always?) || (p.Never? && q.Never?)
  }

  lemma AsEagerIff(p: Policy, q: Policy)
    ensures Rank(p) >= Rank(q) <==> AsEager(p, q)
  {
  }

  /** The policy that the container's image is to be checked with: the container's own, else the
      configured check policy, else the configured pull policy, else "if not present" for a pinned image
      and "always" for any other. */
  ghost predicate AsksFor(cfg: Settings, c: Container, p: Policy) {
    && (!c.policy.Unset? ==> p == c.policy)
    && (c.policy.Unset? && !cfg.checkPolicy.Unset? ==> p == cfg.checkPolicy)
    && (c.policy.Unset? && cfg.checkPolicy.Unset? && !cfg.pullPolicy.Unset? ==> p == cfg.pullPolicy)
    && (c.policy.Unset? && cfg.checkPolicy.Unset? && cfg.pullPolicy.Unset? ==>
          p == if cfg.parse(c.image) == Some(true) then IfNotPresent else Always)
  }

  lemma NominalIsAskedFor(cfg: Settings, c: Container, p: Policy)
    requires cfg.parse(c.image).Some?
    ensures AsksFor(cfg, c, p) <==> p == Nominal(cfg, c, cfg.parse(c.image).value)
  {
  }

  /** This init container pulls the image at least as eagerly as any of the app containers asks for. */
  ghost predicate Satisfies(cfg: Settings, cs: seq<Container>, image: string, d: Container) {
    d.image == image && forall e, p :: e in cs && e.image == image && AsksFor(cfg, e, p) ==> AsEager(d.policy, p)
  }

  /** Every app container finds an init container that pulls its image as eagerly as it, and every other
      user of the image, asks for. */
  lemma CoveredAsAsked(cfg: Settings, cs: seq<Container>, user: seq<Container>, init: seq<Container>, c: Container)
    requires AllValid(cfg, cs) && !cfg.skipChecks && IsPlan(cfg, cs, user, init) && c in cs
    ensures exists d :: d in init && Satisfies(cfg, cs, c.image, d)
  {
    Coverage(cfg, cs, user, init, c);
    var strongest: nat :| Pulls(init, c.image, strongest)
              && forall e :: e in cs && e.image == c.image ==> Rank(Nominal(cfg, e, cfg.parse(e.image).value)) <= strongest;
    var d :| d in init && d.image == c.image && Rank(d.policy) >= strongest;
    forall e, p | e in cs && e.image == c.image && AsksFor(cfg, e, p) ensures AsEager(d.policy, p) {
      NominalIsAskedFor(cfg, e, p);
      AsEagerIff(d.policy, p);
    }
  }

  /** A check container does what some app container that uses the image asks for, and no more than the
      most eager of them. */
  lemma ChecksAsAsked(cfg: Settings, cs: seq<Container>, existing: seq<Container>, made: seq<Container>, d: Container)
    requires AllValid(cfg, cs) && Checked(cfg, cs, existing, made) && d in made
    ensures exists c :: c in cs && c.image == d.image && AsksFor(cfg, c, d.policy)
    ensures Satisfies(cfg, cs, d.image, d)
  {
    SelectedIsStrongest(cfg, cs);
    var check := Selected(cfg, cs)[d.image];
    var c :| c in cs && c.image == d.image && cfg.parse(d.image) == Some(check.pinned) && check.policy == Nominal(cfg, c, check.pinned);
    assert AsksFor(cfg, c, d.policy) by { NominalIsAskedFor(cfg, c, check.policy); }
    forall e, p | e in cs && e.image == d.image && AsksFor(cfg, e, p) ensures AsEager(d.policy, p) {
      NominalIsAskedFor(cfg, e, p);
      AsEagerIff(d.policy, p);
    }
  }

  /** Nothing about pulling is said of the image, by any container that uses it or by the configuration. */
  ghost predicate NothingSaid(cfg: Settings, cs: seq<Container>, image: string) {
    cfg.checkPolicy.Unset? && cfg.pullPolicy.Unset? && forall c :: c in cs && c.image == image ==> c.policy.Unset?
  }

  ghost predicate AlwaysPulled(init: seq<Container>, image: string) {
    exists d :: d in init && d.image == image && d.policy.Always?
  }

  /** When nothing is said: an image that is not pinned is always pulled by some init container, and a
      check of a pinned one pulls it only if it is not present. */
  lemma DefaultsFollowThePin(cfg: Settings, cs: seq<Container>, user: seq<Container>, init: seq<Container>, c: Container,
                             existing: seq<Container>, made: seq<Container>, d: Container)
    requires AllValid(cfg, cs) && c in cs && NothingSaid(cfg, cs, c.image)
    ensures !cfg.skipChecks && IsPlan(cfg, cs, user, init) && cfg.parse(c.image) == Some(false) ==> AlwaysPulled(init, c.image)
    ensures Checked(cfg, cs, existing, made) && d in made && d.image == c.image && cfg.parse(c.image) == Some(true) ==> d.policy.IfNotPresent?
  {
    if !cfg.skipChecks && IsPlan(cfg, cs, user, init) && cfg.parse(c.image) == Some(false) {
      CoveredAsAsked(cfg, cs, user, init, c);
      var e :| e in init && Satisfies(cfg, cs, c.image, e);
      assert AsksFor(cfg, c, Always);
    }
    if Checked(cfg, cs, existing, made) && d in made && d.image == c.image && cfg.parse(c.image) == Some(true) {
      ChecksAsAsked(cfg, cs, existing, made, d);
      var e :| e in cs && e.image == d.image && AsksFor(cfg, e, d.policy);
    }
  }

  /** The container would always pull its image if nothing was pulled for it. */
  predicate WouldAlwaysPull(cfg: Settings, c: Container) {
    || c.policy.Always?
    || (c.policy.Unset? && cfg.pullPolicy.Always?)
    || (c.policy.Unset? && cfg.pullPolicy.Unset? && cfg.parse(c.image) == Some(false))
  }

  /** What becomes of an app container: one with an invalid image stays as it is. Any other keeps its own
      policy, else takes the configured pull policy, else the default, except that "always" becomes "if not
      present", exactly if the image's check would be an "always" one as well: unless the container relies
      on a configuration whose check policy is another. */
  lemma RewrittenContainer(cfg: Settings, c: Container)
    ensures var t := Adjusted(cfg, c);
            && t.name == c.name && t.image == c.image
            && (cfg.parse(c.image).None? ==> t == c)
            && (cfg.parse(c.image).Some? && WouldAlwaysPull(cfg, c) ==>
                  t.policy == if !c.policy.Unset? || cfg.checkPolicy.Unset? || cfg.checkPolicy.Always? then IfNotPresent else Always)
            && (cfg.parse(c.image).Some? && !WouldAlwaysPull(cfg, c) ==>
                  t.policy == if !c.policy.Unset? then c.policy else if !cfg.pullPolicy.Unset? then cfg.pullPolicy else IfNotPresent)
  {
  }

  /** The container that sets up the workspace: the agent's image, with the configured pull policy, or
      the default for that image. */
  lemma SetupContainer(cfg: Settings)
    ensures Setup(cfg).name == "copy-agent" && Setup(cfg).image == cfg.image
    ensures !cfg.pullPolicy.Unset? ==> Setup(cfg).policy == cfg.pullPolicy
    ensures cfg.pullPolicy.Unset? ==> Setup(cfg).policy == if cfg.parse(cfg.image) == Some(true) then IfNotPresent else Always
  {
  }

  predicate Downgraded(cfg: Settings, c: Container) {
    cfg.parse(c.image).Some? && WouldAlwaysPull(cfg, c) && Adjusted(cfg, c).policy.IfNotPresent?
  }

  /** An app container downgraded from Always is made up for by an init container that always pulls
      its image, exactly when checks are not skipped or an existing init container does so anyway. */
  lemma DowngradeIsMadeUpFor(cfg: Settings, cs: seq<Container>, user: seq<Container>, init: seq<Container>, c: Container)
    requires AllValid(cfg, cs)
    requires IsPlan(cfg, cs, user, init) && c in cs && Downgraded(cfg, c)
    ensures AlwaysPulled(init, c.image) <==> !cfg.skipChecks || AlwaysPulled([Setup(cfg)] + user, c.image)
  {
    if cfg.skipChecks {
      var made :| Checked(cfg, cs, [Setup(cfg)] + user, made) && init == [Setup(cfg)] + made + user;
      assert init == [Setup(cfg)] + user;
    } else {
      CoveredAsAsked(cfg, cs, user, init, c);
      var d :| d in init && Satisfies(cfg, cs, c.image, d);
      assert AsksFor(cfg, c, Always);
    }
  }

  /** With checks skipped, a container without a policy is still downgraded, though nothing pulls
      its image. */
  lemma SkippingLosesThePull()
    ensures exists cfg: Settings, c: Container :: cfg.skipChecks && Downgraded(cfg, c) && IsPlan(cfg, [c], [], [Setup(cfg)])
                             && !AlwaysPulled([Setup(cfg)], c.image)
  {
    var cfg := Settings("agent", Unset, Unset, true, _ => Some(false));
    var c := Container("app", "ruby", Unset);
    assert Checked(cfg, [c], [Setup(cfg)] + [], []);
    assert IsPlan(cfg, [c], [], [Setup(cfg)]);
    assert Downgraded(cfg, c);
  }
}

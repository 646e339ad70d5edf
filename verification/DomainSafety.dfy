/** In every interleaving, with calls failing and passes abandoned anywhere, an app's passes touch no mapping of
    another app, and while the app asks for the same domains none of its wanted mappings is lost. */
module DomainSafety {
  import opened Options
  import opened Kube
  import opened ApiServer
  import opened Operator
  import FS = FinalizerSafety
  import PA = PhaseAgreement
  import AC = AppController
  import TC = TenantController

  /** The mapping at `at` belongs to the app at `k`. */
  predicate Belongs(m: map<Key, Mapping>, at: Key, k: Key) {
    at in m && at.ns == k.ns && LabelledFor(m[at], k.name)
  }

  /** The hosts a pass is going to delete. */
  function Doomed(p: AC.Pass): seq<string> {
    match p.pc
    case MappingDelete(host, stale, _) => [host] + stale
    case CleanMapping(host, left) => [host] + left
    case _ => []
  }

  /** `doomed` are mappings of the app at `k`, each named once. */
  ghost predicate AllBelong(m: map<Key, Mapping>, k: Key, doomed: seq<string>) {
    NoDuplicates(doomed) && forall h | h in doomed :: Belongs(m, Key(k.ns, h), k)
  }

  ghost predicate Sound(s: State) {
    forall k | k in s.appPasses :: AllBelong(s.store.mappings, k, Doomed(s.appPasses[k]))
  }

  // ----- apps keep apart --------------------------------------------------------------------------------------------

  /** Nothing that belongs to the app at `k` goes away or changes hands. */
  ghost predicate Undisturbed(a: map<Key, Mapping>, b: map<Key, Mapping>, k: Key) {
    forall at | Belongs(a, at, k) :: Find(b, at) == Find(a, at)
  }

  lemma UndisturbedBelong(a: map<Key, Mapping>, b: map<Key, Mapping>, k: Key, doomed: seq<string>)
    requires Undisturbed(a, b, k) && AllBelong(a, k, doomed)
    ensures AllBelong(b, k, doomed)
  {
    hide NoDuplicates;
    forall h | h in doomed
      ensures Belongs(b, Key(k.ns, h), k)
    {
      assert Find(b, Key(k.ns, h)) == Find(a, Key(k.ns, h));
    }
  }

  /** A pass deletes only what it listed, and creates only where nothing is. */
  lemma AppMappingCalls(k: Key, p: AC.Pass)
    requires !p.pc.Finished?
    ensures var call := AC.NextCall(k, p);
            && (call.DeleteMapping? ==> Doomed(p) != [] && call.key == Key(k.ns, Doomed(p)[0]))
            && (call.CreateMapping? ==> p.pc.MappingCreate? && call.key == Key(k.ns, p.pc.host)
                                        && call.mapping == AC.DesiredMapping(k, p.app.spec))
  {
  }

  /** The mapping whose deletion is the next call of the app's pass, deploying or cleaning up. */
  function Pending(s: State, k: Key): Option<Key> {
    if !AppIdle(s, k) && Doomed(s.appPasses[k]) != [] then Some(Key(k.ns, Doomed(s.appPasses[k])[0])) else None
  }

  /** A call of the pass changes an existing mapping exactly when it is to delete it and is not lost. */
  lemma CallChangesExactly(store: Store, k: Key, p: AC.Pass, chance: Chance, at: Key)
    requires !p.pc.Finished? && at in store.mappings
    ensures Find(Deliver(store, AC.NextCall(k, p), chance).0.mappings, at) != Find(store.mappings, at)
            <==> Doomed(p) != [] && at == Key(k.ns, Doomed(p)[0]) && chance.fault != Lost
  {
    var call := AC.NextCall(k, p);
    AppMappingCalls(k, p);
    DoomedCalls(k, p);
    if Doomed(p) != [] {
      DeleteMappingServed(store, Key(k.ns, Doomed(p)[0]), chance.order);
      hide Serve, AC.NextCall, Doomed;
    } else {
      hide Deliver, AC.NextCall, Doomed;
      DeliverTouches(store, call, chance);
    }
  }

  lemma DoomedCalls(k: Key, p: AC.Pass)
    requires !p.pc.Finished?
    ensures Doomed(p) != [] ==> AC.NextCall(k, p) == DeleteMapping(Key(k.ns, Doomed(p)[0]))
  {
  }

  /** In every state, every turn of an app's controller: an existing mapping, whoever it belongs to, changes if
      and only if its deletion is the pass's next call and the call is not lost. */
  lemma TurnChangesExactly(s: State, k: Key, chance: Chance, at: Key)
    requires at in s.store.mappings
    ensures Find(AppStep(s, k, chance).store.mappings, at) != Find(s.store.mappings, at)
            <==> Pending(s, k) == Some(at) && chance.fault != Lost
  {
    hide Deliver, AC.NextCall, AC.Resume, Doomed;
    if !AppIdle(s, k) {
      CallChangesExactly(s.store, k, s.appPasses[k], chance, at);
    }
  }

  lemma OthersUndisturbed(s: State, k: Key, chance: Chance, at: Key)
    requires Sound(s) && at in s.store.mappings && !Belongs(s.store.mappings, at, k)
    ensures Find(AppStep(s, k, chance).store.mappings, at) == Find(s.store.mappings, at)
  {
    hide AppStep, Doomed;
    TurnChangesExactly(s, k, chance, at);
    if !AppIdle(s, k) && Doomed(s.appPasses[k]) != [] {
      assert AllBelong(s.store.mappings, k, Doomed(s.appPasses[k]));
      assert Doomed(s.appPasses[k])[0] in Doomed(s.appPasses[k]);
    }
  }

  lemma TenantTurnSpares(s: State, n: string, chance: Chance)
    ensures TenantStep(s, n, chance).store.mappings == s.store.mappings
  {
    hide Deliver, TC.NextCall, TC.Resume;
    if !Idle(s, n) {
      FS.TenantCallUnharmed(s.store, n, s.tenantPasses[n], chance, Key("", ""));
    }
  }

  /** Nobody but its own passes, and someone who drops mappings, takes a mapping from an app. */
  lemma OtherStepUndisturbed(s: State, l: Label, k: Key)
    requires Sound(s) && !l.DropMapping? && (l.AppTurn? ==> l.key != k)
    ensures Undisturbed(s.store.mappings, Step(s, l).store.mappings, k)
  {
    hide AppStep, TenantStep, LabelledFor;
    match l {
      case AppTurn(j, chance) =>
        forall at | Belongs(s.store.mappings, at, k)
          ensures Find(Step(s, l).store.mappings, at) == Find(s.store.mappings, at)
        {
          OneOwner(s.store.mappings, at, j, k);
          OthersUndisturbed(s, j, chance, at);
        }
      case TenantTurn(n, chance) => TenantTurnSpares(s, n, chance);
      case _ =>
    }
  }

  lemma OneOwner(m: map<Key, Mapping>, at: Key, j: Key, k: Key)
    requires Belongs(m, at, k) && j != k
    ensures !Belongs(m, at, j)
  {
  }

  // ----- listed mappings stay listed --------------------------------------------------------------------------------

  lemma {:induction false} StaleDistinct(listed: seq<string>, wanted: seq<string>)
    requires NoDuplicates(listed)
    ensures NoDuplicates(AC.Stale(listed, wanted))
  {
    if listed != [] {
      Apart(listed);
      StaleDistinct(listed[1..], wanted);
      var rest := AC.Stale(listed[1..], wanted);
      if listed[0] !in wanted {
        Prepend(listed[0], rest);
      } else {
        assert AC.Stale(listed, wanted) == rest;
      }
    }
  }

  lemma Apart(s: seq<string>)
    requires s != [] && NoDuplicates(s)
    ensures s[0] !in s[1..] && NoDuplicates(s[1..])
  {
    assert forall i | 0 <= i < |s| - 1 :: s[1..][i] == s[i + 1];
  }

  lemma Prepend(h: string, s: seq<string>)
    requires h !in s && NoDuplicates(s)
    ensures NoDuplicates([h] + s)
  {
    assert forall i | 0 < i < |s| + 1 :: ([h] + s)[i] == s[i - 1];
  }

  /** What is left of the list after its head, whether or not the head went away. */
  lemma TailBelongs(a: map<Key, Mapping>, b: map<Key, Mapping>, k: Key, doomed: seq<string>)
    requires doomed != [] && AllBelong(a, k, doomed) && (b == a || b == a - {Key(k.ns, doomed[0])})
    ensures AllBelong(b, k, doomed[1..])
  {
    Apart(doomed);
    hide NoDuplicates, LabelledFor;
    forall h | h in doomed[1..]
      ensures Belongs(b, Key(k.ns, h), k)
    {
      assert h in doomed;
      assert h != doomed[0];
    }
  }

  /** A pass that was answered goes on with a list of its own mappings. */
  lemma ListingBelongs(store: Store, k: Key, order: seq<string>)
    requires Enumerates(order, MappingNames(store.mappings, k.ns, k.name))
    ensures AllBelong(store.mappings, k, order)
  {
    hide NoDuplicates;
  }

  lemma SomeBelong(m: map<Key, Mapping>, k: Key, listed: seq<string>, wanted: seq<string>)
    requires AllBelong(m, k, listed)
    ensures AllBelong(m, k, AC.Stale(listed, wanted))
  {
    StaleDistinct(listed, wanted);
    hide NoDuplicates, AC.Stale;
  }

  /** How the list of a pass goes on. */
  lemma DoomedNext(p: AC.Pass, r: Response)
    requires !p.pc.Finished?
    ensures var q := AC.Resume(p, r);
            || Doomed(q) == []
            || (Doomed(p) != [] && (r.Ok? || r.NotFound?) && Doomed(q) == Doomed(p)[1..])
            || (p.pc.MappingList? && r.Listed? && Doomed(q) == AC.Stale(r.names, p.app.spec.customDomains))
            || (p.pc.CleanList? && r.Listed? && Doomed(q) == r.names)
  {
    hide AC.Stale, AC.Missing, AC.DesiredServiceSpec, AC.Observed;
    if p.pc.MappingList? && r.Listed? {
      ListHead(AC.Stale(r.names, p.app.spec.customDomains));
    } else if p.pc.CleanList? && r.Listed? {
      ListHead(r.names);
    } else if p.pc.MappingDelete? {
      ListHead(p.pc.stale);
    } else if p.pc.CleanMapping? {
      ListHead(p.pc.left);
    }
  }

  lemma ListHead(s: seq<string>)
    ensures s != [] ==> [s[0]] + s[1..] == s
  {
  }

  lemma ListAnswer(store: Store, k: Key, chance: Chance)
    ensures var (after, r) := Deliver(store, ListMappings(k.ns, k.name), chance);
            after.mappings == store.mappings
            && (r.Listed? ==> Enumerates(r.names, MappingNames(store.mappings, k.ns, k.name)))
  {
    hide MappingNames, Enumerates;
  }

  lemma DeleteAnswer(store: Store, at: Key, chance: Chance)
    ensures var (after, r) := Deliver(store, DeleteMapping(at), chance);
            (after.mappings == store.mappings || after.mappings == store.mappings - {at})
  {
    DeleteMappingServed(store, at, chance.order);
    hide Serve;
  }

  lemma OwnDoomed(store: Store, k: Key, p: AC.Pass, chance: Chance)
    requires !p.pc.Finished? && AllBelong(store.mappings, k, Doomed(p))
    ensures var (after, r) := Deliver(store, AC.NextCall(k, p), chance);
            AllBelong(after.mappings, k, Doomed(AC.Resume(p, r)))
  {
    var (after, r) := Deliver(store, AC.NextCall(k, p), chance);
    DoomedNext(p, r);
    if Doomed(p) != [] {
      assert AC.NextCall(k, p) == DeleteMapping(Key(k.ns, Doomed(p)[0]));
      DeleteAnswer(store, Key(k.ns, Doomed(p)[0]), chance);
      TailBelongs(store.mappings, after.mappings, k, Doomed(p));
    } else if (p.pc.MappingList? || p.pc.CleanList?) && r.Listed? {
      assert AC.NextCall(k, p) == ListMappings(k.ns, k.name);
      ListAnswer(store, k, chance);
      ListingBelongs(store, k, r.names);
      SomeBelong(store.mappings, k, r.names, p.app.spec.customDomains);
    }
    hide AC.Resume, AC.NextCall, Deliver, Doomed, Belongs;
  }

  lemma StepSound(s: State, l: Label)
    requires Sound(s) && !l.DropMapping?
    ensures Sound(Step(s, l))
  {
    hide AppStep, TenantStep, AllBelong, Undisturbed;
    var t := Step(s, l);
    forall k | k in t.appPasses
      ensures AllBelong(t.store.mappings, k, Doomed(t.appPasses[k]))
    {
      if l.AppTurn? && l.key == k {
        OwnTurnSound(s, k, l.chance);
      } else {
        OtherStepUndisturbed(s, l, k);
        OthersPassStays(s, l, k);
        UndisturbedBelong(s.store.mappings, t.store.mappings, k, Doomed(s.appPasses[k]));
      }
    }
  }

  lemma OthersPassStays(s: State, l: Label, k: Key)
    requires l.AppTurn? ==> l.key != k
    ensures k in Step(s, l).appPasses ==> k in s.appPasses && Step(s, l).appPasses[k] == s.appPasses[k]
  {
    hide Deliver, AC.NextCall, AC.Resume, TC.NextCall, TC.Resume;
  }

  lemma OwnTurnSound(s: State, k: Key, chance: Chance)
    requires Sound(s)
    ensures var t := AppStep(s, k, chance); k in t.appPasses ==> AllBelong(t.store.mappings, k, Doomed(t.appPasses[k]))
  {
    hide Deliver, AC.NextCall, AC.Resume, Belongs;
    if AppIdle(s, k) {
      assert Doomed(AC.NewPass) == [];
    } else {
      OwnDoomed(s.store, k, s.appPasses[k], chance);
    }
  }

  ghost predicate NoDrops(labels: seq<Label>) {
    forall i | 0 <= i < |labels| :: !labels[i].DropMapping?
  }

  lemma {:induction false} RunIsSound(s: State, labels: seq<Label>)
    requires Sound(s) && NoDrops(labels)
    ensures Sound(Run(s, labels))
  {
    if labels == [] {
    } else {
      hide Sound, Step;
      RunIsSound(s, labels[..|labels| - 1]);
      StepSound(Run(s, labels[..|labels| - 1]), labels[|labels| - 1]);
    }
  }

  /** If nobody else deletes mappings, then in every history every turn of one app's controller, deleting or
      creating, answered or not, leaves every mapping of every other app, and every foreign one, as it is. */
  lemma AppsKeepApart(states: seq<State>, labels: seq<Label>, i: nat, at: Key)
    requires History(states, labels) && Initial(states[0]) && NoDrops(labels) && i < |labels| && labels[i].AppTurn?
    requires at in states[i].store.mappings && !Belongs(states[i].store.mappings, at, labels[i].key)
    ensures Find(states[i + 1].store.mappings, at) == Find(states[i].store.mappings, at)
  {
    HistoryPrefix(states, labels, i);
    HistoryIsRun(states[..i + 1], labels[..i]);
    assert NoDrops(labels[..i]);
    assert StepAt(states, labels, i);
    hide AppStep, NoDrops, Belongs, Run, History, StepAt;
    RunIsSound(states[0], labels[..i]);
    OthersUndisturbed(states[i], labels[i].key, labels[i].chance, at);
  }

  /** The listing is not checked again before the delete call, neither by a deploying nor by a cleaning pass: a
      mapping dropped and replaced by anyone in between, whoever it belongs to now, is deleted exactly when the
      call gets through. */
  lemma ReplacedMappingIsDeleted(s: State, k: Key, at: Key, m: Mapping, chance: Chance)
    requires Pending(s, k) == Some(at)
    ensures var t := Step(Step(s, DropMapping(at)), PutMapping(at, m));
            && at in t.store.mappings && t.store.mappings[at].labels == m.labels
            && (Find(Step(t, AppTurn(k, chance)).store.mappings, at) != Find(t.store.mappings, at) <==> chance.fault != Lost)
  {
    var t := Step(Step(s, DropMapping(at)), PutMapping(at, m));
    assert t.appPasses == s.appPasses && at in t.store.mappings && t.store.mappings[at].labels == m.labels;
    assert Pending(t, k) == Pending(s, k) by {
      hide Step, Doomed;
    }
    hide AppStep, OutsideStep, Pending;
    TurnChangesExactly(t, k, chance, at);
  }

  // ----- interruptions lose nothing ---------------------------------------------------------------------------------

  ghost predicate Asks(s: State, k: Key, domains: seq<string>) {
    k in s.store.apps && !s.store.apps[k].deleting && s.store.apps[k].spec.customDomains == domains
  }

  /** Hosts that a pass is going to create. */
  function Planned(p: AC.Pass): seq<string> {
    match p.pc
    case MappingDelete(_, _, missing) => missing
    case MappingCreate(host, missing) => [host] + missing
    case _ => []
  }

  /** A pass that works for `domains`: its copy asks for them, and so do its plans. */
  ghost predicate Faithful(p: AC.Pass, domains: seq<string>) {
    || p.pc.Get? || p.pc.Finished?
    || (p.app.spec.customDomains == domains && !AC.Cleaning(p.pc) && !p.pc.DropFinalizer?
        && (forall h | h in Doomed(p) :: h !in domains) && (forall h | h in Planned(p) :: h in domains))
  }

  lemma PlannedNext(p: AC.Pass, r: Response)
    requires !p.pc.Finished?
    ensures var q := AC.Resume(p, r);
            || (forall h | h in Planned(q) :: h in Planned(p))
            || (p.pc.MappingList? && r.Listed? && forall h | h in Planned(q) :: h in p.app.spec.customDomains)
  {
    hide AC.Stale, AC.DesiredServiceSpec, AC.Observed;
  }

  lemma CopyNext(p: AC.Pass, r: Response)
    requires !p.pc.Finished? && !p.pc.Get? && !AC.Cleaning(p.pc) && !p.pc.DropFinalizer?
    ensures var q := AC.Resume(p, r);
            && !q.pc.Get? && !AC.Cleaning(q.pc) && !q.pc.DropFinalizer?
            && (q.app.spec == p.app.spec || (r.GotApp? && q.app.spec == r.app.spec))
  {
    hide AC.Stale, AC.Missing, AC.DesiredServiceSpec, AC.Observed;
  }

  lemma FaithfulNext(p: AC.Pass, r: Response, domains: seq<string>)
    requires !p.pc.Finished? && !p.pc.Get? && Faithful(p, domains) && (r.GotApp? ==> r.app.spec.customDomains == domains)
    ensures Faithful(AC.Resume(p, r), domains)
  {
    CopyNext(p, r);
    DoomedNext(p, r);
    PlannedNext(p, r);
    hide AC.Resume, AC.Stale;
    assert Doomed(p) != [] ==> forall h | h in Doomed(p)[1..] :: h in Doomed(p);
  }

  lemma FaithfulGet(app: App, domains: seq<string>)
    requires !app.deleting && app.spec.customDomains == domains
    ensures Faithful(AC.AfterGet(app), domains)
  {
  }

  /** A write by the app's own pass is answered with what is stored, which asks for the same domains. */
  lemma AnswerAsks(store: Store, k: Key, p: AC.Pass, chance: Chance, domains: seq<string>)
    requires !p.pc.Finished? && (p.pc.Get? || Faithful(p, domains))
    requires k in store.apps && store.apps[k].spec.customDomains == domains && !store.apps[k].deleting
    ensures var r := Deliver(store, AC.NextCall(k, p), chance).1;
            r.GotApp? ==> r.app.spec.customDomains == domains && !r.app.deleting
  {
    var call := AC.NextCall(k, p);
    FS.AppCalls(k, p);
    AppCallsApp(k, p);
    AppAnswer(store.apps, store.clock, call);
    PA.AnswerOf(store, call, chance);
    hide Deliver, AC.NextCall, ServeApp;
  }

  lemma AppCallsApp(k: Key, p: AC.Pass)
    requires !p.pc.Finished?
    ensures var call := AC.NextCall(k, p);
            && (call.GetApp? || WritesApp(call) ==> call.key == k)
            && (call.UpdateApp? ==> call.app == p.app && !p.pc.Get?)
  {
  }

  lemma AppAnswer(apps: map<Key, App>, rv: nat, call: Call)
    ensures var r := ServeApp(apps, rv, call).1;
            r.GotApp? ==>
              && (call.GetApp? || WritesApp(call)) && call.key in apps && r.app.deleting == apps[call.key].deleting
              && r.app.spec == (if call.UpdateApp? then call.app.spec else apps[call.key].spec)
  {
  }

  ghost predicate Working(s: State, k: Key, domains: seq<string>) {
    k in s.appPasses ==> Faithful(s.appPasses[k], domains)
  }

  lemma StepWorking(s: State, l: Label, k: Key, domains: seq<string>)
    requires Working(s, k, domains) && Asks(s, k, domains)
    ensures Working(Step(s, l), k, domains)
  {
    hide Faithful, Deliver, AC.NextCall, AC.Resume, TC.NextCall, TC.Resume;
    if l.AppTurn? && l.key == k {
      if AppIdle(s, k) {
        assert Faithful(AC.NewPass, domains) by { NewPassFaithful(domains); }
      } else {
        OwnTurnWorking(s, k, l.chance, domains);
      }
    } else {
      OthersPassStays(s, l, k);
    }
  }

  lemma NewPassFaithful(domains: seq<string>)
    ensures Faithful(AC.NewPass, domains)
  {
  }

  lemma OwnTurnWorking(s: State, k: Key, chance: Chance, domains: seq<string>)
    requires Working(s, k, domains) && Asks(s, k, domains) && !AppIdle(s, k)
    ensures Working(AppStep(s, k, chance), k, domains)
  {
    var p := s.appPasses[k];
    var r := Deliver(s.store, AC.NextCall(k, p), chance).1;
    AnswerAsks(s.store, k, p, chance, domains);
    if p.pc.Get? {
      if r.GotApp? {
        FaithfulGet(r.app, domains);
      }
      assert AC.Resume(p, r) == (if r.GotApp? then AC.AfterGet(r.app) else AC.Pass(AC.Finished, p.app));
    } else {
      FaithfulNext(p, r, domains);
    }
    hide Faithful, Deliver, AC.NextCall, AC.Resume;
  }

  /** From `a` to `b` the app at `k` lost no wanted mapping and gained no other. */
  ghost predicate Towards(a: map<Key, Mapping>, b: map<Key, Mapping>, k: Key, domains: seq<string>) {
    && (forall at | Belongs(a, at, k) && at.name in domains :: Find(b, at) == Find(a, at))
    && (forall at | Belongs(b, at, k) && at.name !in domains :: Find(a, at) == Find(b, at))
  }

  lemma OwnCallTowards(store: Store, k: Key, p: AC.Pass, chance: Chance, domains: seq<string>)
    requires !p.pc.Finished? && Faithful(p, domains)
    ensures Towards(store.mappings, Deliver(store, AC.NextCall(k, p), chance).0.mappings, k, domains)
  {
    AppMappingCalls(k, p);
    DeliverTouches(store, AC.NextCall(k, p), chance);
    hide Deliver, AC.NextCall, AC.DesiredMapping, LabelledFor;
  }

  /** No one else makes mappings in the app's name. */
  ghost predicate Honest(l: Label, k: Key) {
    && !l.DropMapping?
    && (l.PutMapping? ==> !(l.key.ns == k.ns && LabelledFor(l.mapping, k.name)))
  }

  lemma OthersAddNone(s: State, l: Label, k: Key, at: Key)
    requires Honest(l, k) && (l.AppTurn? ==> l.key != k)
    ensures Belongs(Step(s, l).store.mappings, at, k) ==> Find(s.store.mappings, at) == Find(Step(s, l).store.mappings, at)
  {
    hide Deliver, AC.NextCall, AC.Resume, TC.NextCall, TC.Resume;
    match l {
      case AppTurn(j, chance) =>
        if !AppIdle(s, j) {
          OtherCallAddsNone(s.store, j, s.appPasses[j], chance, k, at);
        }
      case TenantTurn(n, chance) => TenantTurnSpares(s, n, chance);
      case _ =>
    }
  }

  lemma OtherCallAddsNone(store: Store, j: Key, p: AC.Pass, chance: Chance, k: Key, at: Key)
    requires j != k && !p.pc.Finished?
    ensures var after := Deliver(store, AC.NextCall(j, p), chance).0;
            Belongs(after.mappings, at, k) ==> Find(store.mappings, at) == Find(after.mappings, at)
  {
    hide Deliver, AC.NextCall;
    FS.AppCalls(j, p);
    DeliverTouches(store, AC.NextCall(j, p), chance);
  }

  lemma StepTowards(s: State, l: Label, k: Key, domains: seq<string>)
    requires Sound(s) && Working(s, k, domains) && Honest(l, k)
    ensures Towards(s.store.mappings, Step(s, l).store.mappings, k, domains)
  {
    hide Belongs, Faithful, LabelledFor;
    if l.AppTurn? && l.key == k {
      if !AppIdle(s, k) {
        OwnCallTowards(s.store, k, s.appPasses[k], l.chance, domains);
        hide Deliver, AC.NextCall, AC.Resume;
      }
    } else {
      OtherStepUndisturbed(s, l, k);
      hide Step;
      forall at | Belongs(Step(s, l).store.mappings, at, k)
        ensures Find(s.store.mappings, at) == Find(Step(s, l).store.mappings, at)
      {
        OthersAddNone(s, l, k, at);
      }
    }
  }

  lemma TowardsChain(a: map<Key, Mapping>, b: map<Key, Mapping>, c: map<Key, Mapping>, k: Key, domains: seq<string>)
    requires Towards(a, b, k, domains) && Towards(b, c, k, domains)
    ensures Towards(a, c, k, domains)
  {
    hide LabelledFor;
    forall at | Belongs(a, at, k) && at.name in domains
      ensures Find(c, at) == Find(a, at)
    {
      assert Find(b, at) == Find(a, at);
    }
    forall at | Belongs(c, at, k) && at.name !in domains
      ensures Find(a, at) == Find(c, at)
    {
      assert Find(b, at) == Find(c, at);
    }
  }

  /** All along the run the app asks for `domains` and nobody else touches its mappings. */
  ghost predicate Throughout(s: State, labels: seq<Label>, k: Key, domains: seq<string>) {
    && Asks(Run(s, labels), k, domains)
    && (labels != [] ==>
          Throughout(s, labels[..|labels| - 1], k, domains) && Honest(labels[|labels| - 1], k))
  }

  /** Wherever passes are interrupted, whatever calls fail and whoever else is at work, while an app asks for
      the same domains its wanted mappings stay as they are and it gains none that it does not want. */
  lemma {:induction false} InterruptionsLoseNothing(s: State, labels: seq<Label>, k: Key, domains: seq<string>)
    requires Sound(s) && AppIdle(s, k) && Throughout(s, labels, k, domains)
    ensures var t := Run(s, labels);
            Sound(t) && Working(t, k, domains) && Towards(s.store.mappings, t.store.mappings, k, domains)
  {
    if labels == [] {
    } else {
      hide Sound, Working, Towards, Step;
      var before, l := Run(s, labels[..|labels| - 1]), labels[|labels| - 1];
      InterruptionsLoseNothing(s, labels[..|labels| - 1], k, domains);
      StepSound(before, l);
      StepWorking(before, l, k, domains);
      StepTowards(before, l, k, domains);
      TowardsChain(s.store.mappings, before.store.mappings, Run(s, labels).store.mappings, k, domains);
    }
  }
}

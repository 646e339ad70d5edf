/** Domain mappings converge: passes that only repeated host names can fail still make progress, and settle on
    exactly the wanted set without touching anyone else's mappings. */
module DomainConvergence {
  import opened Options
  import opened Kube
  import opened ApiServer
  import opened SoloPass
  import opened AppConvergence
  import DL = DrainLiveness
  import AC = AppController

  function Wanted(store: Store, k: Key): set<string>
    requires k in store.apps
  {
    set h | h in store.apps[k].spec.customDomains
  }

  function Owned(store: Store, k: Key): set<string> {
    MappingNames(store.mappings, k.ns, k.name)
  }

  function MissingHosts(store: Store, k: Key): set<string>
    requires k in store.apps
  {
    Wanted(store, k) - Owned(store, k)
  }

  /** No wanted host is mapped by anyone else. */
  ghost predicate NoForeign(store: Store, k: Key)
    requires k in store.apps
  {
    Wanted(store, k) * Hosts(store.mappings, k.ns) <= Owned(store, k)
  }

  /** A host the spec repeats is mapped already. */
  ghost predicate NoClash(store: Store, k: Key)
    requires k in store.apps
  {
    var domains := store.apps[k].spec.customDomains;
    forall i, j | 0 <= i < j < |domains| && domains[i] == domains[j] :: domains[i] in Owned(store, k)
  }

  // ----- the hosts a pass creates -----------------------------------------------------------------------------------

  lemma {:induction false} CreatableAll(taken: set<string>, missing: seq<string>)
    ensures Creatable(taken, missing) == missing <==> NoDuplicates(missing) && forall h | h in missing :: h !in taken
    decreases |missing|
  {
    if missing != [] && missing[0] !in taken {
      var rest := missing[1..];
      CreatableAll(taken + {missing[0]}, rest);
      assert ([missing[0]] + Creatable(taken + {missing[0]}, rest) == missing) == (Creatable(taken + {missing[0]}, rest) == rest);
      DuplicatesApart(missing);
    }
  }

  lemma DuplicatesApart(s: seq<string>)
    requires s != []
    ensures NoDuplicates(s) <==> s[0] !in s[1..] && NoDuplicates(s[1..])
    ensures forall h :: h in s <==> h == s[0] || h in s[1..]
  {
    assert s == [s[0]] + s[1..];
    if s[0] !in s[1..] && NoDuplicates(s[1..]) {
      forall i, j | 0 <= i < j < |s|
        ensures s[i] != s[j]
      {
        assert s[j] == s[1..][j - 1];
        if i > 0 {
          assert s[i] == s[1..][i - 1];
        }
      }
    }
  }

  ghost predicate RepeatsListed(listed: seq<string>, wanted: seq<string>) {
    forall i, j | 0 <= i < j < |wanted| && wanted[i] == wanted[j] :: wanted[i] in listed
  }

  lemma RepeatsApart(listed: seq<string>, wanted: seq<string>)
    requires wanted != []
    ensures RepeatsListed(listed, wanted) <==>
              RepeatsListed(listed, wanted[1..]) && (wanted[0] in wanted[1..] ==> wanted[0] in listed)
  {
    var rest := wanted[1..];
    if RepeatsListed(listed, rest) && (wanted[0] in rest ==> wanted[0] in listed) {
      forall i, j | 0 <= i < j < |wanted| && wanted[i] == wanted[j]
        ensures wanted[i] in listed
      {
        assert wanted[j] == rest[j - 1];
        if i > 0 {
          assert wanted[i] == rest[i - 1];
        }
      }
    }
    if RepeatsListed(listed, wanted) {
      forall i, j | 0 <= i < j < |rest| && rest[i] == rest[j]
        ensures rest[i] in listed
      {
        assert wanted[i + 1] == rest[i] && wanted[j + 1] == rest[j];
      }
      if wanted[0] in rest {
        var j :| 0 <= j < |rest| && rest[j] == wanted[0];
        assert wanted[j + 1] == rest[j];
      }
    }
  }

  lemma {:induction false} MissingDistinct(listed: seq<string>, wanted: seq<string>)
    ensures NoDuplicates(AC.Missing(listed, wanted)) <==> RepeatsListed(listed, wanted)
  {
    if wanted != [] {
      hide RepeatsListed;
      MissingDistinct(listed, wanted[1..]);
      RepeatsApart(listed, wanted);
      var rest := AC.Missing(listed, wanted[1..]);
      if wanted[0] !in listed {
        assert ([wanted[0]] + rest)[1..] == rest;
        DuplicatesApart([wanted[0]] + rest);
      } else {
        assert AC.Missing(listed, wanted) == rest;
      }
    } else {
      assert RepeatsListed(listed, wanted);
    }
  }

  // ----- what is made is found again ------------------------------------------------------------------------------

  /** A mapping created for an app points to the app's service and is listed for that app from then on, and for
      no other app; nothing else becomes listed or stops being listed. */
  lemma CreatedIsListed(store: Store, k: Key, host: string, spec: AppSpec, order: seq<string>)
    requires Key(k.ns, host) !in store.mappings
    ensures var at := Key(k.ns, host);
            var after := Serve(store, CreateMapping(at, AC.DesiredMapping(k, spec)), order).0;
            && at in after.mappings && after.mappings[at].ref == k.name
            && forall ns, app ::
                 MappingNames(after.mappings, ns, app)
                 == MappingNames(store.mappings, ns, app) + if ns == k.ns && app == k.name then {host} else {}
  {
    var at := Key(k.ns, host);
    var after := Serve(store, CreateMapping(at, AC.DesiredMapping(k, spec)), order).0;
    assert forall app :: LabelledFor(after.mappings[at], app) <==> app == k.name;
    hide LabelledFor;
    forall ns, app
      ensures MappingNames(after.mappings, ns, app)
           == MappingNames(store.mappings, ns, app) + if ns == k.ns && app == k.name then {host} else {}
    {
      assert forall h ::
          h in MappingNames(after.mappings, ns, app)
          <==> Key(ns, h) in after.mappings && LabelledFor(after.mappings[Key(ns, h)], app);
      assert forall h ::
          h in MappingNames(store.mappings, ns, app)
          <==> Key(ns, h) in store.mappings && LabelledFor(store.mappings[Key(ns, h)], app);
    }
  }

  // ----- one pass, as sets ------------------------------------------------------------------------------------------

  /** What a pass does to the mappings of everyone: it removes the app's own that are not wanted and adds
      wanted ones where nothing was; all others keep their values. */
  ghost predicate OnlyRepairs(a: Store, b: Store, k: Key)
    requires k in a.apps
  {
    && (forall at | at in a.mappings && at !in b.mappings ::
          at.ns == k.ns && LabelledFor(a.mappings[at], k.name) && at.name !in Wanted(a, k))
    && (forall at | at in b.mappings && at !in a.mappings ::
          at.ns == k.ns && at.name in Wanted(a, k)
          && AC.LeadsTo(b.mappings[at], k, a.apps[k].spec))
    && (forall at | at in a.mappings && at in b.mappings :: b.mappings[at] == a.mappings[at])
  }

  function Made(store: Store, k: Key, order: seq<string>): seq<string>
    requires k in store.apps
  {
    var domains := store.apps[k].spec.customDomains;
    Creatable(Hosts(store.mappings - KeysOf(k.ns, AC.Stale(order, domains)), k.ns), AC.Missing(order, domains))
  }

  lemma OwnedAt(store: Store, k: Key, host: string)
    ensures host in Owned(store, k) <==> Key(k.ns, host) in store.mappings && LabelledFor(store.mappings[Key(k.ns, host)], k.name)
  {
  }

  lemma KeyInKeysOf(ns: string, hosts: seq<string>, at: Key)
    ensures at in KeysOf(ns, hosts) <==> at.ns == ns && at.name in hosts
  {
    if at.ns == ns && at.name in hosts {
      assert at == Key(ns, at.name);
    }
  }

  /** A pass takes away and adds just these. */
  lemma PassKeys(store: Store, k: Key, order: seq<string>)
    requires Healthy(store, k) && Enumerates(order, Owned(store, k))
    ensures var st := OnePass(store, k, order);
            forall at :: at in st.mappings <==>
              (at in store.mappings && !(at.ns == k.ns && at.name in Owned(store, k) && at.name !in Wanted(store, k)))
              || (at.ns == k.ns && at.name in Made(store, k, order))
    ensures var st := OnePass(store, k, order);
            forall at | at in st.mappings ::
              if at in store.mappings then (at.ns == k.ns && at.name in Made(store, k, order)) || st.mappings[at] == store.mappings[at]
              else AC.LeadsTo(st.mappings[at], k, store.apps[k].spec)
  {
    PassRuns(store, k, order);
    var domains := store.apps[k].spec.customDomains;
    var stale := AC.Stale(order, domains);
    var made := Made(store, k, order);
    hide OnePass, Owned, KeysOf, Hosts, Creatable, AC.LeadsTo, LabelledFor, ServiceSettled;
    forall at
      ensures at in KeysOf(k.ns, stale) <==> at.ns == k.ns && at.name in order && at.name !in domains
      ensures at in KeysOf(k.ns, made) <==> at.ns == k.ns && at.name in made
    {
      KeyInKeysOf(k.ns, stale, at);
      KeyInKeysOf(k.ns, made, at);
    }
  }

  lemma PassRepairs(store: Store, k: Key, order: seq<string>)
    requires Healthy(store, k) && Enumerates(order, Owned(store, k))
    ensures OnlyRepairs(store, OnePass(store, k, order), k)
    ensures var st := OnePass(store, k, order);
            forall h :: Key(k.ns, h) in st.mappings <==>
              (Key(k.ns, h) in store.mappings && (h in Owned(store, k) ==> h in Wanted(store, k))) || h in Made(store, k, order)
  {
    PassKeys(store, k, order);
    MadeFresh(store, k, order);
    var st := OnePass(store, k, order);
    hide OnePass, Owned, Made, AC.LeadsTo, LabelledFor;
    forall at: Key | at.ns == k.ns
      ensures at == Key(k.ns, at.name)
      ensures at.name in Owned(store, k) <==> at in store.mappings && LabelledFor(store.mappings[at], k.name)
    {
      OwnedAt(store, k, at.name);
    }
  }

  lemma MadeFits(store: Store, k: Key, order: seq<string>)
    requires k in store.apps && Enumerates(order, Owned(store, k))
    ensures Made(store, k, order) == AC.Missing(order, store.apps[k].spec.customDomains) <==>
              NoForeign(store, k) && NoClash(store, k)
    ensures NoForeign(store, k) && MissingHosts(store, k) != {} ==> Made(store, k, order) != []
  {
    var domains := store.apps[k].spec.customDomains;
    var missing := AC.Missing(order, domains);
    var kept := store.mappings - KeysOf(k.ns, AC.Stale(order, domains));
    var taken := Hosts(kept, k.ns);
    hide Owned;
    CreatableAll(taken, missing);
    MissingDistinct(order, domains);
    hide Creatable, AC.Missing, NoDuplicates;
    MissingTaken(store, k, order);
    if MissingHosts(store, k) != {} {
      var h :| h in MissingHosts(store, k);
      assert h in missing;
      CreatableFirst(taken, missing);
    }
  }

  lemma {:induction false} CreatableFresh(taken: set<string>, missing: seq<string>)
    ensures forall h | h in Creatable(taken, missing) :: h in missing && h !in taken
    decreases |missing|
  {
    if missing != [] && missing[0] !in taken {
      CreatableFresh(taken + {missing[0]}, missing[1..]);
    }
  }

  /** Only free keys are filled. */
  lemma MadeFresh(store: Store, k: Key, order: seq<string>)
    requires k in store.apps && Enumerates(order, Owned(store, k))
    ensures forall h | h in Made(store, k, order) :: h in MissingHosts(store, k) && Key(k.ns, h) !in store.mappings
  {
    var domains := store.apps[k].spec.customDomains;
    var stale := AC.Stale(order, domains);
    var kept := store.mappings - KeysOf(k.ns, stale);
    CreatableFresh(Hosts(kept, k.ns), AC.Missing(order, domains));
    hide Owned, KeysOf, Hosts, Creatable;
    forall h | h in Made(store, k, order)
      ensures Key(k.ns, h) !in store.mappings
    {
      HostsAt(kept, k.ns, h);
      KeyInKeysOf(k.ns, stale, Key(k.ns, h));
    }
  }

  lemma CreatableFirst(taken: set<string>, missing: seq<string>)
    requires missing != []
    ensures missing[0] !in taken ==> Creatable(taken, missing) != []
  {
  }

  /** The missing hosts that are taken are those mapped by others. */
  lemma MissingTaken(store: Store, k: Key, order: seq<string>)
    requires k in store.apps && Enumerates(order, Owned(store, k))
    ensures var domains := store.apps[k].spec.customDomains;
            var taken := Hosts(store.mappings - KeysOf(k.ns, AC.Stale(order, domains)), k.ns);
            (forall h | h in AC.Missing(order, domains) :: h !in taken) <==> NoForeign(store, k)
  {
    var domains := store.apps[k].spec.customDomains;
    var stale := AC.Stale(order, domains);
    var kept := store.mappings - KeysOf(k.ns, stale);
    hide Owned, KeysOf, Hosts;
    forall h | h in domains
      ensures h in Hosts(kept, k.ns) <==> h in Hosts(store.mappings, k.ns)
    {
      HostsAt(kept, k.ns, h);
      HostsAt(store.mappings, k.ns, h);
      KeyInKeysOf(k.ns, stale, Key(k.ns, h));
    }
  }

  // ----- the order in which they are created ------------------------------------------------------------------------

  /** Creating the `i`th wanted host would fail: it was not listed, and its name is taken or it comes earlier too. */
  predicate Blocked(taken: set<string>, listed: seq<string>, wanted: seq<string>, i: nat)
    requires i < |wanted|
  {
    wanted[i] !in listed && (wanted[i] in taken || wanted[i] in wanted[..i])
  }

  /** The `i`th wanted host was not listed, and creating it and those before it succeeds. */
  ghost predicate Reached(taken: set<string>, listed: seq<string>, wanted: seq<string>, i: nat)
    requires i < |wanted|
  {
    wanted[i] !in listed && forall j | 0 <= j <= i :: !Blocked(taken, listed, wanted, j)
  }

  ghost predicate ReachedHost(taken: set<string>, listed: seq<string>, wanted: seq<string>, h: string) {
    exists i: nat :: i < |wanted| && wanted[i] == h && Reached(taken, listed, wanted, i)
  }

  lemma BlockedShifts(taken: set<string>, listed: seq<string>, wanted: seq<string>, i: nat)
    requires i + 1 < |wanted|
    ensures var now := if wanted[0] in listed then taken else taken + {wanted[0]};
            Blocked(taken, listed, wanted, i + 1) <==> Blocked(now, listed, wanted[1..], i)
  {
    assert wanted[..i + 1] == [wanted[0]] + wanted[1..][..i];
  }

  /** Behind a first host that is not blocked the rest goes on with its name taken. */
  lemma ReachedShifts(taken: set<string>, listed: seq<string>, wanted: seq<string>, i: nat)
    requires i + 1 < |wanted| && !Blocked(taken, listed, wanted, 0)
    ensures var now := if wanted[0] in listed then taken else taken + {wanted[0]};
            Reached(taken, listed, wanted, i + 1) <==> Reached(now, listed, wanted[1..], i)
  {
    var now := if wanted[0] in listed then taken else taken + {wanted[0]};
    forall j: nat | j <= i
      ensures Blocked(taken, listed, wanted, j + 1) <==> Blocked(now, listed, wanted[1..], j)
    {
      BlockedShifts(taken, listed, wanted, j);
    }
    hide Blocked;
    if Reached(now, listed, wanted[1..], i) {
      forall j | 0 <= j <= i + 1
        ensures !Blocked(taken, listed, wanted, j)
      {
        if j > 0 {
          assert !Blocked(now, listed, wanted[1..], j - 1);
        }
      }
    }
    if Reached(taken, listed, wanted, i + 1) {
      forall j | 0 <= j <= i
        ensures !Blocked(now, listed, wanted[1..], j)
      {
        assert !Blocked(taken, listed, wanted, j + 1);
      }
    }
  }

  lemma ReachedHostShifts(taken: set<string>, listed: seq<string>, wanted: seq<string>, h: string)
    requires wanted != [] && !Blocked(taken, listed, wanted, 0)
    ensures var now := if wanted[0] in listed then taken else taken + {wanted[0]};
            ReachedHost(taken, listed, wanted, h)
            <==> (h == wanted[0] && h !in listed) || ReachedHost(now, listed, wanted[1..], h)
  {
    var now := if wanted[0] in listed then taken else taken + {wanted[0]};
    assert h == wanted[0] && h !in listed ==> Reached(taken, listed, wanted, 0);
    hide Blocked, Reached;
    if ReachedHost(taken, listed, wanted, h) {
      var i: nat :| i < |wanted| && wanted[i] == h && Reached(taken, listed, wanted, i);
      if i > 0 {
        ReachedShifts(taken, listed, wanted, i - 1);
        assert wanted[1..][i - 1] == h;
      } else {
        ReachedIsNew(taken, listed, wanted, i);
      }
    }
    if ReachedHost(now, listed, wanted[1..], h) {
      var i: nat :| i < |wanted[1..]| && wanted[1..][i] == h && Reached(now, listed, wanted[1..], i);
      ReachedShifts(taken, listed, wanted, i);
      assert wanted[i + 1] == h;
    }
  }

  lemma ReachedIsNew(taken: set<string>, listed: seq<string>, wanted: seq<string>, i: nat)
    requires i < |wanted| && Reached(taken, listed, wanted, i)
    ensures wanted[i] !in listed
  {
  }

  lemma BlockedFirst(taken: set<string>, listed: seq<string>, wanted: seq<string>, h: string)
    requires wanted != [] && Blocked(taken, listed, wanted, 0)
    ensures !ReachedHost(taken, listed, wanted, h)
  {
  }

  /** The hosts created are those reached in the spec's order before the first that is blocked. */
  lemma {:induction false} CreatableInOrder(taken: set<string>, listed: seq<string>, wanted: seq<string>)
    ensures forall h :: h in Creatable(taken, AC.Missing(listed, wanted)) <==> ReachedHost(taken, listed, wanted, h)
    decreases |wanted|
  {
    if wanted != [] {
      var now := if wanted[0] in listed then taken else taken + {wanted[0]};
      var rest := AC.Missing(listed, wanted[1..]);
      if Blocked(taken, listed, wanted, 0) {
        assert AC.Missing(listed, wanted) == [wanted[0]] + rest;
        assert Creatable(taken, AC.Missing(listed, wanted)) == [];
        forall h
          ensures !ReachedHost(taken, listed, wanted, h)
        {
          BlockedFirst(taken, listed, wanted, h);
        }
      } else {
        CreatableInOrder(now, listed, wanted[1..]);
        FirstCreated(taken, listed, wanted);
        hide ReachedHost, Creatable;
        forall h
          ensures ReachedHost(taken, listed, wanted, h)
                  <==> (h == wanted[0] && h !in listed) || ReachedHost(now, listed, wanted[1..], h)
        {
          ReachedHostShifts(taken, listed, wanted, h);
        }
      }
    }
  }

  lemma FirstCreated(taken: set<string>, listed: seq<string>, wanted: seq<string>)
    requires wanted != [] && !Blocked(taken, listed, wanted, 0)
    ensures var rest := AC.Missing(listed, wanted[1..]);
            Creatable(taken, AC.Missing(listed, wanted))
            == if wanted[0] in listed then Creatable(taken, rest) else [wanted[0]] + Creatable(taken + {wanted[0]}, rest)
  {
    var rest := AC.Missing(listed, wanted[1..]);
    if wanted[0] in listed {
      assert AC.Missing(listed, wanted) == [] + rest == rest;
    } else {
      assert AC.Missing(listed, wanted) == [wanted[0]] + rest;
      assert ([wanted[0]] + rest)[1..] == rest;
    }
  }

  /** The app does not have its `i`th wanted host, and someone else has, or the spec names it earlier too. */
  ghost predicate Clashes(store: Store, k: Key, i: nat)
    requires k in store.apps && i < |store.apps[k].spec.customDomains|
  {
    var wanted := store.apps[k].spec.customDomains;
    wanted[i] !in Owned(store, k) && (Key(k.ns, wanted[i]) in store.mappings || wanted[i] in wanted[..i])
  }

  lemma ClashesAreBlocked(store: Store, k: Key, order: seq<string>, i: nat)
    requires k in store.apps && Enumerates(order, Owned(store, k)) && i < |store.apps[k].spec.customDomains|
    ensures var wanted := store.apps[k].spec.customDomains;
            Clashes(store, k, i) <==> Blocked(Hosts(store.mappings - KeysOf(k.ns, AC.Stale(order, wanted)), k.ns), order, wanted, i)
  {
    var wanted := store.apps[k].spec.customDomains;
    var stale := AC.Stale(order, wanted);
    hide Owned, KeysOf, Hosts;
    HostsAt(store.mappings - KeysOf(k.ns, stale), k.ns, wanted[i]);
    KeyInKeysOf(k.ns, stale, Key(k.ns, wanted[i]));
  }

  /** The host is wanted and new, and neither its own place in the spec nor an earlier one clashes. */
  ghost predicate FreeSoFar(store: Store, k: Key, h: string)
    requires k in store.apps
  {
    var wanted := store.apps[k].spec.customDomains;
    h !in Owned(store, k) && exists i :: 0 <= i < |wanted| && wanted[i] == h && ClashFreeUpTo(store, k, i)
  }

  ghost predicate ClashFreeUpTo(store: Store, k: Key, i: nat)
    requires k in store.apps && i < |store.apps[k].spec.customDomains|
  {
    forall j | 0 <= j <= i :: !Clashes(store, k, j)
  }

  lemma FreeIsReached(store: Store, k: Key, order: seq<string>, h: string)
    requires k in store.apps && Enumerates(order, Owned(store, k))
    ensures var wanted := store.apps[k].spec.customDomains;
            FreeSoFar(store, k, h)
            <==> ReachedHost(Hosts(store.mappings - KeysOf(k.ns, AC.Stale(order, wanted)), k.ns), order, wanted, h)
  {
    var wanted := store.apps[k].spec.customDomains;
    var taken := Hosts(store.mappings - KeysOf(k.ns, AC.Stale(order, wanted)), k.ns);
    forall i: nat | i < |wanted|
      ensures Clashes(store, k, i) <==> Blocked(taken, order, wanted, i)
    {
      ClashesAreBlocked(store, k, order, i);
    }
    hide Clashes, Blocked, Owned, Hosts, KeysOf, NoDuplicates, AC.Stale;
    forall i: nat | i < |wanted| && wanted[i] !in order
      ensures ClashFreeUpTo(store, k, i) <==> Reached(taken, order, wanted, i)
    {
    }
  }

  /** A pass creates the wanted hosts in the order of the spec, up to the first that clashes and not beyond. */
  lemma PassCreatesInOrder(store: Store, k: Key, order: seq<string>)
    requires Healthy(store, k) && Enumerates(order, Owned(store, k))
    ensures var st := OnePass(store, k, order);
            forall h :: Key(k.ns, h) in st.mappings && Key(k.ns, h) !in store.mappings <==> FreeSoFar(store, k, h)
  {
    PassRepairs(store, k, order);
    MadeFresh(store, k, order);
    var wanted := store.apps[k].spec.customDomains;
    CreatableInOrder(Hosts(store.mappings - KeysOf(k.ns, AC.Stale(order, wanted)), k.ns), order, wanted);
    forall h
      ensures h in Made(store, k, order) <==> FreeSoFar(store, k, h)
    {
      FreeIsReached(store, k, order, h);
    }
    hide OnePass, Owned, Made, FreeSoFar, OnlyRepairs;
  }

  /** The sets after one pass. */
  lemma PassAsSets(store: Store, k: Key, order: seq<string>)
    requires Healthy(store, k) && Enumerates(order, Owned(store, k))
    ensures var st := OnePass(store, k, order);
            && Healthy(st, k) && st.apps[k].spec == store.apps[k].spec
            && MissingHosts(st, k) == MissingHosts(store, k) - (set h | h in Made(store, k, order))
            && Owned(st, k) == Wanted(st, k) - MissingHosts(st, k)
            && (NoForeign(store, k) ==> NoForeign(st, k))
            && (st.apps[k].status.phase == AppPhase.Failed <==> !NoForeign(store, k) || !NoClash(store, k))
  {
    PassKeepsHealth(store, k, order);
    PassRepairs(store, k, order);
    MadeFits(store, k, order);
    MadeFresh(store, k, order);
    hide OnePass, OnlyRepairs, Made, MissingHosts, Owned, NoForeign, NoClash, Healthy;
    OwnedAfter(store, OnePass(store, k, order), k, Made(store, k, order));
  }

  lemma PassKeepsHealth(store: Store, k: Key, order: seq<string>)
    requires Healthy(store, k) && Enumerates(order, Owned(store, k))
    ensures var st := OnePass(store, k, order);
            && Healthy(st, k) && st.apps[k].spec == store.apps[k].spec
            && (st.apps[k].status.phase == AppPhase.Failed <==>
                  Made(store, k, order) != AC.Missing(order, store.apps[k].spec.customDomains))
  {
    PassRuns(store, k, order);
    hide OnePass, Hosts, AC.Missing, AC.Stale, Creatable, KeysOf, Grown, ServiceSettled;
  }

  lemma OwnedAfter(a: Store, b: Store, k: Key, made: seq<string>)
    requires k in a.apps && k in b.apps && a.apps[k].spec == b.apps[k].spec && OnlyRepairs(a, b, k)
    requires forall h | h in made :: h in MissingHosts(a, k)
    requires forall h :: Key(k.ns, h) in b.mappings <==>
               (Key(k.ns, h) in a.mappings && (h in Owned(a, k) ==> h in Wanted(a, k))) || h in made
    requires forall h | h in made :: Key(k.ns, h) !in a.mappings
    ensures MissingHosts(b, k) == MissingHosts(a, k) - set h | h in made
    ensures Owned(b, k) == Wanted(b, k) - MissingHosts(b, k)
    ensures NoForeign(a, k) ==> NoForeign(b, k)
  {
    hide Owned;
    forall h
      ensures h in Owned(a, k) <==> Key(k.ns, h) in a.mappings && LabelledFor(a.mappings[Key(k.ns, h)], k.name)
      ensures h in Owned(b, k) <==> Key(k.ns, h) in b.mappings && LabelledFor(b.mappings[Key(k.ns, h)], k.name)
    {
      OwnedAt(a, k, h);
      OwnedAt(b, k, h);
    }
    assert forall m: Mapping | AC.LeadsTo(m, k, a.apps[k].spec) :: LabelledFor(m, k.name);
  }

  /** A pass reports failure exactly when a wanted host is mapped by someone else, or is repeated in the spec
      and not mapped yet; otherwise the app's mappings are exactly the wanted ones. */
  lemma PassFailsExactlyOnClash(store: Store, k: Key, order: seq<string>)
    requires Healthy(store, k) && Enumerates(order, Owned(store, k))
    ensures var st := OnePass(store, k, order);
            && k in st.apps
            && (st.apps[k].status.phase == AppPhase.Failed <==> !NoForeign(store, k) || !NoClash(store, k))
            && (st.apps[k].status.phase != AppPhase.Failed ==> Owned(st, k) == Wanted(store, k))
  {
    PassAsSets(store, k, order);
    MadeFits(store, k, order);
    var st := OnePass(store, k, order);
    hide OnePass, Owned, Creatable, NoForeign, NoClash, AC.Stale;
    if st.apps[k].status.phase != AppPhase.Failed {
      assert forall h :: h in MissingHosts(store, k) ==> h in AC.Missing(order, store.apps[k].spec.customDomains);
    }
  }

  /** A pass that fails on a repeated host has still mapped one more. */
  lemma FailingPassProgresses(store: Store, k: Key, order: seq<string>)
    requires Healthy(store, k) && Enumerates(order, Owned(store, k)) && NoForeign(store, k)
    ensures var st := OnePass(store, k, order);
            && k in st.apps && MissingHosts(st, k) <= MissingHosts(store, k)
            && (if st.apps[k].status.phase == AppPhase.Failed then |MissingHosts(st, k)| < |MissingHosts(store, k)|
                else MissingHosts(st, k) == {})
  {
    PassAsSets(store, k, order);
    PassFailsExactlyOnClash(store, k, order);
    MadeFits(store, k, order);
    MadeFresh(store, k, order);
    var st := OnePass(store, k, order);
    hide OnePass, NoForeign, Made, Owned;
    if st.apps[k].status.phase == AppPhase.Failed {
      ClashLeavesMissing(store, k);
      var h := Made(store, k, order)[0];
      assert h in MissingHosts(store, k) && h !in MissingHosts(st, k);
      DL.Shrinks(MissingHosts(st, k), MissingHosts(store, k));
    }
  }

  lemma ClashLeavesMissing(store: Store, k: Key)
    requires k in store.apps && !NoClash(store, k)
    ensures MissingHosts(store, k) != {}
  {
    hide Owned;
    var domains := store.apps[k].spec.customDomains;
    var i, j :| 0 <= i < j < |domains| && domains[i] == domains[j] && domains[i] !in Owned(store, k);
    assert domains[i] in MissingHosts(store, k);
  }

  // ----- pass after pass --------------------------------------------------------------------------------------------

  /** The `i`th pass, its listing in some order. */
  ghost predicate PassAt(stores: seq<Store>, k: Key, orders: seq<seq<string>>, i: nat)
    requires |stores| == |orders| + 1 && i < |orders|
  {
    Enumerates(orders[i], Owned(stores[i], k)) && stores[i + 1] == OnePass(stores[i], k, orders[i])
  }

  ghost predicate PassAfterPass(stores: seq<Store>, k: Key, orders: seq<seq<string>>) {
    |stores| == |orders| + 1 && forall i | 0 <= i < |orders| :: PassAt(stores, k, orders, i)
  }

  lemma PassesPrefix(stores: seq<Store>, k: Key, orders: seq<seq<string>>)
    requires orders != [] && PassAfterPass(stores, k, orders)
    ensures PassAfterPass(stores[..|orders|], k, orders[..|orders| - 1])
  {
    hide OnePass, Owned, Enumerates;
    var fewer, first := stores[..|orders|], orders[..|orders| - 1];
    forall i | 0 <= i < |first|
      ensures PassAt(fewer, k, first, i)
    {
      assert PassAt(stores, k, orders, i);
    }
  }

  lemma RepairsChain(a: Store, b: Store, c: Store, k: Key)
    requires k in a.apps && k in b.apps && a.apps[k].spec == b.apps[k].spec
    requires OnlyRepairs(a, b, k) && OnlyRepairs(b, c, k)
    ensures OnlyRepairs(a, c, k)
  {
  }

  lemma {:induction false} PassesProgress(stores: seq<Store>, k: Key, orders: seq<seq<string>>)
    requires PassAfterPass(stores, k, orders) && Healthy(stores[0], k) && NoForeign(stores[0], k)
    ensures var st := stores[|orders|];
            && Healthy(st, k) && st.apps[k].spec == stores[0].apps[k].spec && NoForeign(st, k)
            && OnlyRepairs(stores[0], st, k)
            && (|MissingHosts(st, k)| + |orders| <= |MissingHosts(stores[0], k)|
                || (MissingHosts(st, k) == {} && Owned(st, k) == Wanted(stores[0], k)
                    && st.apps[k].status.phase != AppPhase.Failed))
  {
    if orders == [] {
    } else {
      var n := |orders| - 1;
      PassesPrefix(stores, k, orders);
      assert PassAt(stores, k, orders, n);
      hide OnePass, PassAfterPass, Enumerates, Owned, Healthy, NoForeign, OnlyRepairs, MissingHosts;
      PassesProgress(stores[..n + 1], k, orders[..n]);
      LastPassProgresses(stores[0], stores[n], k, orders[n], n);
    }
  }

  lemma LastPassProgresses(first: Store, before: Store, k: Key, order: seq<string>, n: nat)
    requires k in first.apps && Healthy(before, k) && before.apps[k].spec == first.apps[k].spec && NoForeign(before, k)
    requires OnlyRepairs(first, before, k) && Enumerates(order, Owned(before, k))
    requires |MissingHosts(before, k)| + n <= |MissingHosts(first, k)| || MissingHosts(before, k) == {}
    ensures var st := OnePass(before, k, order);
            && Healthy(st, k) && st.apps[k].spec == first.apps[k].spec && NoForeign(st, k) && OnlyRepairs(first, st, k)
            && (|MissingHosts(st, k)| + n + 1 <= |MissingHosts(first, k)|
                || (MissingHosts(st, k) == {} && Owned(st, k) == Wanted(first, k) && st.apps[k].status.phase != AppPhase.Failed))
  {
    hide OnePass, Owned, NoForeign, OnlyRepairs, MissingHosts, Enumerates;
    PassAsSets(before, k, order);
    PassRepairs(before, k, order);
    FailingPassProgresses(before, k, order);
    PassFailsExactlyOnClash(before, k, order);
    RepairsChain(first, before, OnePass(before, k, order), k);
    assert MissingHosts(before, k) == {} ==> |MissingHosts(before, k)| == 0;
  }

  /** Whatever the cluster was like, if nobody else maps a wanted host, then after as many passes as there are
      missing hosts, and one more, the app's mappings are exactly the wanted ones, the last pass did not fail,
      and everything else that is mapped is as it was. */
  lemma DomainsConverge(stores: seq<Store>, k: Key, orders: seq<seq<string>>)
    requires PassAfterPass(stores, k, orders) && Healthy(stores[0], k) && NoForeign(stores[0], k)
    requires |orders| > |MissingHosts(stores[0], k)|
    ensures var st := stores[|orders|];
            && k in st.apps && Owned(st, k) == Wanted(stores[0], k)
            && st.apps[k].status.phase != AppPhase.Failed
            && OnlyRepairs(stores[0], st, k)
  {
    hide PassAfterPass, Owned, OnlyRepairs, NoForeign, MissingHosts, Wanted;
    PassesProgress(stores, k, orders);
  }

  // ----- the fixpoint -----------------------------------------------------------------------------------------------

  /** The service and the mappings match the app. */
  ghost predicate Matches(store: Store, k: Key)
    requires k in store.apps
  {
    && k in store.services && AC.Renders(store.services[k].spec, store.apps[k].spec)
    && Owned(store, k) == Wanted(store, k)
  }

  /** With distinct hosts that nobody else maps, one pass makes any cluster match. */
  lemma OnePassMatches(store: Store, k: Key, order: seq<string>)
    requires Healthy(store, k) && Enumerates(order, Owned(store, k))
    requires NoForeign(store, k) && NoDuplicates(store.apps[k].spec.customDomains)
    ensures var st := OnePass(store, k, order);
            && k in st.apps && Matches(st, k) && st.apps[k].spec == store.apps[k].spec && st.apps[k].status.phase != AppPhase.Failed
            && ServiceSettled(store.services, st.services, k, store.apps[k].spec)
  {
    PassFailsExactlyOnClash(store, k, order);
    PassRuns(store, k, order);
    AC.RendersExactly(OnePass(store, k, order).services[k].spec, store.apps[k].spec);
    hide AC.Renders, OnePass, Owned, NoForeign, Creatable, Grown, KeysOf;
    hide Hosts, AC.Missing, AC.Stale, AC.DesiredServiceSpec, AC.DesiredService, AC.ReplacedService;
  }

  /** A pass writes no service and no mapping exactly when they match the app already. */
  lemma PassIsFixpoint(store: Store, k: Key, order: seq<string>)
    requires Healthy(store, k) && Enumerates(order, Owned(store, k)) && NoForeign(store, k)
    ensures var st := OnePass(store, k, order);
            st.services == store.services && st.mappings == store.mappings <==> Matches(store, k)
  {
    PassRuns(store, k, order);
    PassRepairs(store, k, order);
    PassAsSets(store, k, order);
    MadeFits(store, k, order);
    MadeFresh(store, k, order);
    var st := OnePass(store, k, order);
    assert st.services == store.services <==> k in store.services && AC.Renders(store.services[k].spec, store.apps[k].spec) by {
      if k in store.services {
        AC.RendersExactly(store.services[k].spec, store.apps[k].spec);
      }
      hide AC.Renders, OnePass, Owned, NoForeign, Creatable, Grown, KeysOf;
      hide Hosts, AC.Missing, AC.Stale, AC.DesiredServiceSpec, AC.KeptAnnotations, AC.ChildLabels;
    }
    SameMappingsSameOwned(store, st, k, order);
  }

  lemma NonEmptyHas(s: seq<string>)
    ensures s != [] ==> exists h :: h in s
  {
    if s != [] {
      assert s[0] in s;
    }
  }

  lemma SameMappingsSameOwned(a: Store, b: Store, k: Key, order: seq<string>)
    requires k in a.apps && k in b.apps && OnlyRepairs(a, b, k) && b.apps[k].spec == a.apps[k].spec
    requires MissingHosts(b, k) == MissingHosts(a, k) - set h | h in Made(a, k, order)
    requires Owned(b, k) == Wanted(b, k) - MissingHosts(b, k)
    requires MissingHosts(a, k) != {} ==> Made(a, k, order) != []
    requires forall h | h in Made(a, k, order) :: h in MissingHosts(a, k)
    requires NoForeign(a, k)
    ensures b.mappings == a.mappings <==> Owned(a, k) == Wanted(a, k)
  {
    hide Made, Hosts;
    if b.mappings == a.mappings {
      var made := Made(a, k, order);
      assert MissingHosts(b, k) == MissingHosts(a, k);
      forall h
        ensures h !in made
      {
      }
      NonEmptyHas(made);
    } else if Owned(a, k) == Wanted(a, k) {
      forall at | at in a.mappings
        ensures at in b.mappings
      {
        OwnedAt(a, k, at.name);
        assert at.ns == k.ns ==> at == Key(k.ns, at.name);
      }
      forall at | at in b.mappings
        ensures at in a.mappings
      {
        OwnedAt(a, k, at.name);
        assert at.ns == k.ns ==> at == Key(k.ns, at.name);
      }
    }
  }
}

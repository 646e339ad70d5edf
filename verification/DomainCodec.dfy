/** Environment variables of an app as apiserver/service/app.go edits them: a patch language, and a list
    of custom domains kept comma-separated under one reserved key. */
module DomainCodec {
  import opened Options

  type Env = map<string, string>

  const DOMAINS_KEY := "_domains"

  /** A hostname the codec can carry. */
  predicate IsHost(h: string) {
    h != "" && ',' !in h
  }

  predicate Hosts(hs: seq<string>) {
    forall h | h in hs :: IsHost(h)
  }

  // ----- the codec ------------------------------------------------------------------------------------

  /** The hosts completed by a comma so far, and the text since the last comma. */
  datatype Scanned = Scanned(hosts: seq<string>, open: string)

  function Flush(s: Scanned): seq<string> {
    if s.open == "" then s.hosts else s.hosts + [s.open]
  }

  function Scan(raw: string): Scanned {
    if raw == "" then Scanned([], "")
    else
      var before := Scan(raw[..|raw| - 1]);
      if raw[|raw| - 1] == ',' then Scanned(Flush(before), "")
      else Scanned(before.hosts, before.open + [raw[|raw| - 1]])
  }

  function Parsed(raw: string): seq<string> {
    Flush(Scan(raw))
  }

  method ParseDomains(raw: string) returns (domains: seq<string>)
    ensures domains == Parsed(raw)
  {
    domains := [];
    if raw == "" {
      return;
    }
    var start := 0;
    var i := 0;
    while i <= |raw|
      invariant 0 <= start <= i <= |raw| + 1
      invariant i <= |raw| ==> raw[start..i] == Scan(raw[..i]).open && domains == Scan(raw[..i]).hosts
      invariant i == |raw| + 1 ==> domains == Parsed(raw)
    {
      if i < |raw| {
        assert raw[..i + 1][..i] == raw[..i];
      } else {
        assert raw[..i] == raw;
      }
      if i == |raw| || raw[i] == ',' {
        var h := raw[start..i];
        if h != "" {
          domains := domains + [h];
        }
        start := i + 1;
      }
      i := i + 1;
    }
  }

  function Encoded(hs: seq<string>): string {
    if hs == [] then ""
    else if |hs| == 1 then hs[0]
    else Encoded(hs[..|hs| - 1]) + "," + hs[|hs| - 1]
  }

  method EncodeDomains(domains: seq<string>) returns (result: string)
    ensures result == Encoded(domains)
  {
    if |domains| == 0 {
      return "";
    }
    result := "";
    var i := 0;
    while i < |domains|
      invariant 0 <= i <= |domains|
      invariant result == Encoded(domains[..i])
    {
      assert domains[..i + 1][..i] == domains[..i];
      if i > 0 {
        result := result + ",";
      }
      result := result + domains[i];
      i := i + 1;
    }
    assert domains[..i] == domains;
  }

  lemma {:induction false} ScanYieldsHosts(raw: string)
    ensures Hosts(Scan(raw).hosts) && ',' !in Scan(raw).open
  {
    if raw != "" {
      ScanYieldsHosts(raw[..|raw| - 1]);
    }
  }

  lemma ParsedAreHosts(raw: string)
    ensures Hosts(Parsed(raw))
  {
    hide Scan;
    ScanYieldsHosts(raw);
  }

  /** Scanning comma-free text only lengthens the open piece. */
  lemma {:induction false} ScanHost(raw: string, h: string)
    requires ',' !in h
    ensures Scan(raw + h) == Scanned(Scan(raw).hosts, Scan(raw).open + h)
  {
    if h == "" {
      assert raw + h == raw && Scan(raw).open + h == Scan(raw).open;
    } else {
      var n := |h| - 1;
      assert (raw + h)[..|raw + h| - 1] == raw + h[..n];
      ScanHost(raw, h[..n]);
      assert h[..n] + [h[n]] == h;
    }
  }

  lemma ScanComma(raw: string)
    ensures Scan(raw + ",") == Scanned(Parsed(raw), "")
  {
    assert (raw + ",")[..|raw|] == raw;
  }

  lemma {:induction false} ScanEncoded(hs: seq<string>)
    requires Hosts(hs) && hs != []
    ensures Scan(Encoded(hs)) == Scanned(hs[..|hs| - 1], hs[|hs| - 1])
  {
    var n := |hs| - 1;
    assert IsHost(hs[n]) by {
      assert hs[n] in hs;
    }
    if n == 0 {
      ScanHost("", hs[0]);
      assert "" + hs[0] == hs[0];
    } else {
      ScanEncoded(hs[..n]);
      assert hs[n - 1] in hs;
      assert hs[..n] == hs[..n][..n - 1] + [hs[n - 1]];
      ScanComma(Encoded(hs[..n]));
      ScanHost(Encoded(hs[..n]) + ",", hs[n]);
      assert "" + hs[n] == hs[n];
    }
  }

  /** Parsing undoes encoding on exactly the lists of non-empty comma-free hosts. */
  lemma ParseUndoesEncode(hs: seq<string>)
    ensures Parsed(Encoded(hs)) == hs <==> Hosts(hs)
  {
    if hs == [] {
      assert Parsed("") == [];
    } else if Hosts(hs) {
      ScanEncoded(hs);
      assert hs[|hs| - 1] in hs;
      assert hs == hs[..|hs| - 1] + [hs[|hs| - 1]];
    } else {
      ParsedAreHosts(Encoded(hs));
    }
  }

  /** Re-encoding what was parsed keeps the meaning and reaches a normal form. */
  lemma EncodeNormalises(raw: string)
    ensures Parsed(Encoded(Parsed(raw))) == Parsed(raw)
    ensures Encoded(Parsed(Encoded(Parsed(raw)))) == Encoded(Parsed(raw))
  {
    ParsedAreHosts(raw);
    ParseUndoesEncode(Parsed(raw));
  }

  /** After a comma scanning starts anew. */
  lemma {:induction false} ScanResumes(a: string, b: string)
    requires Scan(a).open == ""
    ensures Scan(a + b) == Scanned(Scan(a).hosts + Scan(b).hosts, Scan(b).open)
  {
    if b == "" {
      assert a + b == a && Scan(a).hosts + [] == Scan(a).hosts;
    } else {
      var n := |b| - 1;
      assert (a + b)[..|a + b| - 1] == a + b[..n];
      ScanResumes(a, b[..n]);
    }
  }

  /** A comma separates: the text on either side is parsed on its own, and the left hosts come first. */
  lemma CommaSeparates(a: string, b: string)
    ensures Parsed(a + "," + b) == Parsed(a) + Parsed(b)
  {
    ScanComma(a);
    ScanResumes(a + ",", b);
    hide Scan;
  }

  /** Text without a comma is one host, or none if it is empty. */
  lemma NoCommaIsOneHost(h: string)
    requires ',' !in h
    ensures Parsed(h) == if h == "" then [] else [h]
  {
    ScanHost("", h);
    assert "" + h == h;
  }

  /** Encoding puts one comma between the hosts, and leaves their order. */
  lemma {:induction false} EncodingJoins(hs: seq<string>, ks: seq<string>)
    requires hs != [] && ks != []
    ensures Encoded(hs + ks) == Encoded(hs) + "," + Encoded(ks)
    ensures Encoded([hs[0]]) == hs[0]
  {
    var n := |ks| - 1;
    assert (hs + ks)[..|hs + ks| - 1] == hs + ks[..n];
    if n == 0 {
      assert hs + ks[..n] == hs;
    } else {
      EncodingJoins(hs, ks[..n]);
    }
  }

  // ----- domain operations on an environment ----------------------------------------------------------

  function RawDomains(env: Env): string {
    if DOMAINS_KEY in env then env[DOMAINS_KEY] else ""
  }

  /** What ListDomains answers. */
  function DomainsOf(env: Env): seq<string> {
    Parsed(RawDomains(env))
  }

  function Without(hs: seq<string>, h: string): seq<string> {
    if hs == [] then []
    else Without(hs[..|hs| - 1], h) + if hs[|hs| - 1] == h then [] else [hs[|hs| - 1]]
  }

  datatype DomainOp = AddHost(h: string) | RemoveHost(h: string)

  /** The environment an operation stores, or None when it is refused. */
  function DomainEdit(env: Env, op: DomainOp): Option<Env> {
    var hs := DomainsOf(env);
    match op
    case AddHost(h) => if h == "" || h in hs then None else Some(env[DOMAINS_KEY := Encoded(hs + [h])])
    case RemoveHost(h) => if h == "" || h !in hs then None else Some(env[DOMAINS_KEY := Encoded(Without(hs, h))])
  }

  /** The same operations on a list. */
  function ListEdit(hs: seq<string>, op: DomainOp): Option<seq<string>> {
    match op
    case AddHost(h) => if h == "" || h in hs then None else Some(hs + [h])
    case RemoveHost(h) => if h == "" || h !in hs then None else Some(Without(hs, h))
  }

  function RunDomains(env: Env, ops: seq<DomainOp>): Env {
    if ops == [] then env
    else
      var before := RunDomains(env, ops[..|ops| - 1]);
      var edit := DomainEdit(before, ops[|ops| - 1]);
      if edit.Some? then edit.value else before
  }

  function RunList(hs: seq<string>, ops: seq<DomainOp>): seq<string> {
    if ops == [] then hs
    else
      var before := RunList(hs, ops[..|ops| - 1]);
      var edit := ListEdit(before, ops[|ops| - 1]);
      if edit.Some? then edit.value else before
  }

  lemma {:induction false} WithoutIsFilter(hs: seq<string>, h: string)
    ensures forall x :: x in Without(hs, h) <==> x in hs && x != h
    ensures NoDuplicates(hs) ==> NoDuplicates(Without(hs, h))
  {
    if hs != [] {
      var n := |hs| - 1;
      WithoutIsFilter(hs[..n], h);
      assert hs == hs[..n] + [hs[n]];
      if NoDuplicates(hs) {
        assert NoDuplicates(hs[..n]);
        assert hs[n] !in hs[..n];
        assert hs[n] !in Without(hs[..n], h);
      }
    }
  }

  /** The positions in ascending order of the entries other than `h`, none left out. */
  ghost predicate Others(hs: seq<string>, h: string, at: seq<nat>) {
    && (forall i, j | 0 <= i < j < |at| :: at[i] < at[j])
    && (forall i | 0 <= i < |at| :: at[i] < |hs| && hs[at[i]] != h)
    && (forall j | 0 <= j < |hs| && hs[j] != h :: j in at)
  }

  /** Removal leaves the other hosts, each as often and in the order it was listed. */
  lemma {:induction false} RemovalKeepsOrder(hs: seq<string>, h: string) returns (at: seq<nat>)
    ensures Others(hs, h, at) && |Without(hs, h)| == |at|
    ensures forall i | 0 <= i < |at| :: Without(hs, h)[i] == hs[at[i]]
  {
    at := [];
    if hs != [] {
      var n := |hs| - 1;
      at := RemovalKeepsOrder(hs[..n], h);
      if hs[n] != h {
        ghost var before := at;
        at := at + [n];
        forall j | 0 <= j < |hs| && hs[j] != h
          ensures j in at
        {
          assert j < n ==> hs[..n][j] != h && j in before;
        }
      } else {
        forall j | 0 <= j < |hs| && hs[j] != h
          ensures j in at
        {
          assert hs[..n][j] != h;
        }
      }
    }
  }

  /** `left` is the list without `h`, in its order. */
  ghost predicate LeftAfter(hs: seq<string>, h: string, left: seq<string>) {
    exists at :: Others(hs, h, at) && |left| == |at| && forall i | 0 <= i < |at| :: left[i] == hs[at[i]]
  }

  lemma RemovalLeaves(hs: seq<string>, h: string)
    ensures LeftAfter(hs, h, Without(hs, h))
  {
    var at := RemovalKeepsOrder(hs, h);
    hide Without, Others;
  }

  /** Adding a host that is not yet listed appends it if and only if it contains no comma: the code
      accepts commas, and then stores several hosts or none. */
  lemma AddAppendsExactly(env: Env, h: string)
    requires h != "" && h !in DomainsOf(env)
    ensures DomainEdit(env, AddHost(h)).Some?
    ensures DomainsOf(DomainEdit(env, AddHost(h)).value) == DomainsOf(env) + [h] <==> ',' !in h
  {
    var hs := DomainsOf(env);
    ParsedAreHosts(RawDomains(env));
    ParseUndoesEncode(hs + [h]);
    assert (hs + [h])[|hs|] == h;
    assert Hosts(hs + [h]) <==> IsHost(h);
  }

  /** A comma-free operation on the environment is the same operation on the list it carries. */
  lemma EditRefinesList(env: Env, op: DomainOp)
    requires ',' !in op.h
    ensures DomainEdit(env, op).Some? == ListEdit(DomainsOf(env), op).Some?
    ensures DomainEdit(env, op).Some? ==>
              && DomainsOf(DomainEdit(env, op).value) == ListEdit(DomainsOf(env), op).value
              && DomainEdit(env, op).value - {DOMAINS_KEY} == env - {DOMAINS_KEY}
  {
    var hs := DomainsOf(env);
    hide Parsed, Encoded, Without;
    ParsedAreHosts(RawDomains(env));
    if op.AddHost? {
      ParseUndoesEncode(hs + [op.h]);
    } else {
      WithoutIsFilter(hs, op.h);
      ParseUndoesEncode(Without(hs, op.h));
    }
  }

  lemma ListStaysDistinct(hs: seq<string>, op: DomainOp)
    requires NoDuplicates(hs) && ListEdit(hs, op).Some?
    ensures NoDuplicates(ListEdit(hs, op).value)
  {
    WithoutIsFilter(hs, op.h);
  }

  /** Over any run of comma-free operations the stored text behaves as a duplicate-free ordered list,
      and every other key keeps its value. */
  lemma {:induction false} DomainsAreAList(env: Env, ops: seq<DomainOp>)
    requires forall op | op in ops :: ',' !in op.h
    requires NoDuplicates(DomainsOf(env))
    ensures DomainsOf(RunDomains(env, ops)) == RunList(DomainsOf(env), ops)
    ensures NoDuplicates(RunList(DomainsOf(env), ops))
    ensures RunDomains(env, ops) - {DOMAINS_KEY} == env - {DOMAINS_KEY}
  {
    if ops != [] {
      hide DomainEdit, ListEdit, DomainsOf;
      var n := |ops| - 1;
      DomainsAreAList(env, ops[..n]);
      assert ops[n] in ops;
      EditRefinesList(RunDomains(env, ops[..n]), ops[n]);
      if ListEdit(RunList(DomainsOf(env), ops[..n]), ops[n]).Some? {
        ListStaysDistinct(RunList(DomainsOf(env), ops[..n]), ops[n]);
      }
    }
  }

  // ----- patches ----------------------------------------------------------------------------------------

  /** An empty value deletes its key. */
  function Patched(env: Env, patch: Env): Env {
    map k | k in env.Keys + patch.Keys && (k in patch ==> patch[k] != "") :: if k in patch then patch[k] else env[k]
  }

  function PatchKey(env: Env, patch: Env, k: string): Env
    requires k in patch
  {
    if patch[k] == "" then env - {k} else env[k := patch[k]]
  }

  /** The loop of PatchEnv, for one iteration order of the patch. */
  function PatchInOrder(env: Env, patch: Env, order: seq<string>): Env
    requires forall k | k in order :: k in patch
  {
    if order == [] then env
    else PatchKey(PatchInOrder(env, patch, order[..|order| - 1]), patch, order[|order| - 1])
  }

  lemma {:induction false} PatchInOrderAt(env: Env, patch: Env, order: seq<string>)
    requires forall k | k in order :: k in patch
    ensures forall k | k in order :: Find(PatchInOrder(env, patch, order), k) == Find(Patched(env, patch), k)
    ensures forall k | k !in order :: Find(PatchInOrder(env, patch, order), k) == Find(env, k)
  {
    if order != [] {
      var n := |order| - 1;
      assert order == order[..n] + [order[n]];
      PatchInOrderAt(env, patch, order[..n]);
    }
  }

  /** Every iteration order gives the same environment. */
  lemma PatchOrderIrrelevant(env: Env, patch: Env, order: seq<string>)
    requires Enumerates(order, patch.Keys)
    ensures PatchInOrder(env, patch, order) == Patched(env, patch)
  {
    PatchInOrderAt(env, patch, order);
    var a, b := PatchInOrder(env, patch, order), Patched(env, patch);
    forall k
      ensures Find(a, k) == Find(b, k)
    {
      assert k in order <==> k in patch;
    }
    assert forall k :: k in a <==> Find(a, k).Some?;
    assert forall k :: k in b <==> Find(b, k).Some?;
    assert forall k | k in a :: Find(a, k) == Some(a[k]) && Find(b, k) == Some(b[k]);
  }

  /** What patching must leave: a key the patch names is there if and only if its new value is not empty, and then
      with that value; a key it does not name is as it was. */
  ghost predicate PatchedBy(env: Env, patch: Env, after: Env) {
    && (forall k | k in patch :: (k in after <==> patch[k] != "") && (k in after ==> after[k] == patch[k]))
    && (forall k | k !in patch :: (k in after <==> k in env) && (k in after ==> after[k] == env[k]))
  }

  lemma PatchedExactly(env: Env, patch: Env, after: Env)
    ensures after == Patched(env, patch) <==> PatchedBy(env, patch, after)
  {
    if PatchedBy(env, patch, after) {
      assert forall k :: k in after <==> k in Patched(env, patch);
    }
  }

  /** Whatever the order of its loop, the patch leaves what it must. */
  lemma PatchMeaning(env: Env, patch: Env, order: seq<string>)
    requires Enumerates(order, patch.Keys)
    ensures PatchedBy(env, patch, PatchInOrder(env, patch, order))
  {
    PatchOrderIrrelevant(env, patch, order);
    PatchedExactly(env, patch, Patched(env, patch));
  }

  /** Patching twice is patching once with the later patch on top; in particular patching is idempotent. */
  lemma PatchesCompose(env: Env, p: Env, q: Env)
    ensures Patched(Patched(env, p), q) == Patched(env, p + q)
    ensures Patched(Patched(env, p), p) == Patched(env, p)
  {
    assert p + p == p;
  }

  /** A patch leaves the stored domain list alone unless it names the reserved key. */
  lemma PatchKeepsDomains(env: Env, patch: Env)
    ensures DOMAINS_KEY !in patch ==> DomainsOf(Patched(env, patch)) == DomainsOf(env)
    ensures DOMAINS_KEY in patch ==> DomainsOf(Patched(env, patch)) == Parsed(patch[DOMAINS_KEY])
  {
    if DOMAINS_KEY in patch && patch[DOMAINS_KEY] == "" {
      assert Parsed("") == [];
    }
  }
}

/**
 The named servers, the active one among them, and what is persisted of both.

 New ids are parameters: the program draws random UUIDs.
 */
module ServerStore {
  import opened Options

  type Uuid = nat

  /** `rest` stands for the fields the store only carries. */
  datatype Profile = Profile(id: Uuid, serverName: string, useWrapA: bool, deviceID: string, rest: nat)

  datatype Store = Store(servers: seq<Profile>, active: Uuid, saved: seq<Profile>, savedActive: Uuid)

  // ----- names ---------------------------------------------------------------------------------

  function Digit(d: nat): char
    requires d < 10
  {
    (48 + d) as char
  }

  /** The decimal notation of a number. */
  function Decimal(n: nat): (s: string)
    ensures s != ""
  {
    if n < 10 then [Digit(n)] else Decimal(n / 10) + [Digit(n % 10)]
  }

  function ValueOf(s: string): int {
    if s == "" then 0 else ValueOf(s[..|s| - 1]) * 10 + (s[|s| - 1] as int - 48)
  }

  lemma {:induction false} DecimalRoundTrip(n: nat)
    ensures ValueOf(Decimal(n)) == n
  {
    if n >= 10 {
      DecimalRoundTrip(n / 10);
      assert Decimal(n)[..|Decimal(n)| - 1] == Decimal(n / 10);
    } else {
      assert Decimal(n)[..0] == "";
    }
  }

  function Numbered(prefix: string, n: nat): string { prefix + Decimal(n) }

  lemma NumberedApart(prefix: string, m: nat, n: nat)
    requires Numbered(prefix, m) == Numbered(prefix, n)
    ensures m == n
  {
    assert Numbered(prefix, m)[|prefix|..] == Decimal(m);
    assert Numbered(prefix, n)[|prefix|..] == Decimal(n);
    DecimalRoundTrip(m);
    DecimalRoundTrip(n);
  }

  /** The first number from `n` on whose name is free. */
  function FirstFree(prefix: string, names: set<string>, n: nat): nat
    decreases |names|
  {
    if Numbered(prefix, n) !in names then n
    else FirstFree(prefix, names - {Numbered(prefix, n)}, n + 1)
  }

  /** The search ends within one probe more than there are names, at the least free number. */
  lemma {:induction false} FirstFreeIsLeast(prefix: string, names: set<string>, n: nat)
    ensures var m := FirstFree(prefix, names, n);
      && n <= m <= n + |names|
      && Numbered(prefix, m) !in names
      && forall k: nat :: n <= k < m ==> Numbered(prefix, k) in names
    decreases |names|
  {
    var name := Numbered(prefix, n);
    if name in names {
      FirstFreeIsLeast(prefix, names - {name}, n + 1);
      var m := FirstFree(prefix, names, n);
      if Numbered(prefix, m) == name {
        NumberedApart(prefix, m, n);
      }
    }
  }

  function Names(servers: seq<Profile>): set<string> { set p | p in servers :: p.serverName }

  function NextDefaultName(servers: seq<Profile>): string {
    Numbered("Server", FirstFree("Server", Names(servers), 1))
  }

  function UniqueName(servers: seq<Profile>, base: string): string {
    if base !in Names(servers) then base
    else Numbered(base + " ", FirstFree(base + " ", Names(servers), 2))
  }

  // ----- the mutations -------------------------------------------------------------------------

  function IndexOf(servers: seq<Profile>, id: Uuid): (i: nat)
    ensures i <= |servers|
    ensures i < |servers| ==> servers[i].id == id
    ensures forall k :: 0 <= k < i ==> servers[k].id != id
  {
    if servers == [] || servers[0].id == id then 0 else 1 + IndexOf(servers[1..], id)
  }

  predicate Contains(servers: seq<Profile>, id: Uuid) { IndexOf(servers, id) < |servers| }

  function Without(servers: seq<Profile>, id: Uuid): seq<Profile> {
    if servers == [] then []
    else (if servers[0].id == id then [] else [servers[0]]) + Without(servers[1..], id)
  }

  function IndexOfName(servers: seq<Profile>, name: string): (i: nat)
    ensures i <= |servers|
    ensures i < |servers| ==> servers[i].serverName == name
    ensures forall k :: 0 <= k < i ==> servers[k].serverName != name
  {
    if servers == [] || servers[0].serverName == name then 0 else 1 + IndexOfName(servers[1..], name)
  }

  /** Every WRAP-A server without a device id gets the legacy one, if the device has one (not the empty string). */
  function Seeded(servers: seq<Profile>, legacy: string): seq<Profile> {
    seq(|servers|, k requires 0 <= k < |servers| =>
      if legacy != "" && servers[k].useWrapA && servers[k].deviceID == "" then servers[k].(deviceID := legacy)
      else servers[k])
  }

  function Persisted(s: Store): Store { s.(saved := s.servers, savedActive := s.active) }

  const NEW_PROFILE: Profile := Profile(0, "", false, "", 0)

  datatype Op =
    | Activate(id: Uuid)
    | Update(profile: Profile)
    | AddNew(newId: Uuid)
    | Copy(id: Uuid, newId: Uuid)
    | Delete(id: Uuid)
    | ReplaceAll(profiles: seq<Profile>, activeName: Option<string>)
    | Reset(profile: Profile)
    | AddAndActivate(profile: Profile)

  function After(legacy: string, s: Store, op: Op): Store {
    match op
    case Activate(id) => if Contains(s.servers, id) then Persisted(s.(active := id)) else s
    case Update(p) =>
      var i := IndexOf(s.servers, p.id);
      if i < |s.servers| then Persisted(s.(servers := s.servers[i := p])) else s
    case AddNew(newId) =>
      Persisted(s.(servers := s.servers + [NEW_PROFILE.(id := newId, serverName := NextDefaultName(s.servers))]))
    case Copy(id, newId) =>
      var i := IndexOf(s.servers, id);
      if i == |s.servers| then s
      else
        var name := UniqueName(s.servers, s.servers[i].serverName + " copy");
        Persisted(s.(servers := s.servers + [s.servers[i].(id := newId, serverName := name)]))
    case Delete(id) =>
      var left := Without(s.servers, id);
      if |s.servers| <= 1 then s
      else if id == s.active && left != [] then Persisted(s.(servers := left, active := left[0].id))
      else Persisted(s.(servers := left))
    case ReplaceAll(profiles, activeName) =>
      if profiles == [] then s
      else
        var i := if activeName.Some? then IndexOfName(profiles, activeName.value) else |profiles|;
        var active := if i < |profiles| then profiles[i].id else profiles[0].id;
        Persisted(s.(servers := Seeded(profiles, legacy), active := active))
    case Reset(profile) => Persisted(s.(servers := Seeded([profile], legacy), active := profile.id))
    case AddAndActivate(p) =>
      var name := if p.serverName == "" then NextDefaultName(s.servers) else UniqueName(s.servers, p.serverName);
      Persisted(s.(servers := s.servers + [p.(serverName := name)], active := p.id))
  }

  /** What a fresh start of the app reads back; `first` is the profile a first launch makes. */
  function Loaded(legacy: string, saved: seq<Profile>, savedActive: Uuid, first: Profile): Store {
    if saved == [] then
      var servers := Seeded([first], legacy);
      Store(servers, first.id, servers, first.id)
    else
      var active := if Contains(saved, savedActive) then savedActive else saved[0].id;
      var servers := Seeded(saved, legacy);
      if servers == saved then Store(saved, active, saved, savedActive) else Store(servers, active, servers, active)
  }

  class ServerStore {
    const legacy: string
    var servers: seq<Profile>
    var activeServerId: Uuid
    var saved: seq<Profile>
    var savedActive: Uuid

    function View(): Store
      reads this
    {
      Store(servers, activeServerId, saved, savedActive)
    }

    /** Loads what was saved, or makes the first server; `saved` is empty where there is nothing readable. */
    constructor (legacy: string, saved: seq<Profile>, savedActive: Uuid, first: Profile)
      ensures View() == Loaded(legacy, saved, savedActive, first) && this.legacy == legacy
    {
      this.legacy, this.saved, this.savedActive := legacy, saved, savedActive;
      servers, activeServerId := saved, savedActive;
      new;
      if saved != [] {
        if !Contains(saved, savedActive) {
          activeServerId := saved[0].id;
        }
      } else {
        servers := [first];
        activeServerId := first.id;
        Persist();
      }
      SeedLegacyWrapADeviceID();
    }

    method Persist()
      modifies this
      ensures View() == Persisted(old(View()))
    {
      saved := servers;
      savedActive := activeServerId;
    }

    method SeedLegacyWrapADeviceID()
      modifies this
      ensures var s, servers' := old(View()), Seeded(old(servers), legacy);
        View() == if servers' == s.servers then s else Persisted(s.(servers := servers'))
    {
      if legacy == "" {
        return;
      }
      ghost var before := servers;
      var seeded := 0;
      for i := 0 to |servers|
        invariant |servers| == |before| && View() == old(View()).(servers := servers)
        invariant forall k :: 0 <= k < i ==> servers[k] == Seeded(before, legacy)[k]
        invariant forall k :: i <= k < |servers| ==> servers[k] == before[k]
        invariant seeded > 0 ==> exists k :: 0 <= k < i && servers[k] != before[k]
        invariant seeded == 0 ==> servers == before
        invariant seeded >= 0
      {
        if servers[i].useWrapA && servers[i].deviceID == "" {
          servers := servers[i := servers[i].(deviceID := legacy)];
          seeded := seeded + 1;
        }
      }
      assert servers == Seeded(before, legacy);
      if seeded > 0 {
        Persist();
      }
    }

    method Activate(id: Uuid)
      modifies this
      ensures View() == After(legacy, old(View()), Op.Activate(id))
    {
      if !Contains(servers, id) {
        return;
      }
      activeServerId := id;
      Persist();
    }

    method Update(profile: Profile)
      modifies this
      ensures View() == After(legacy, old(View()), Op.Update(profile))
    {
      var i := IndexOf(servers, profile.id);
      if i == |servers| {
        return;
      }
      servers := servers[i := profile];
      Persist();
    }

    method AddNew(newId: Uuid) returns (p: Profile)
      modifies this
      ensures View() == After(legacy, old(View()), Op.AddNew(newId)) && servers == old(servers) + [p]
    {
      p := NEW_PROFILE.(id := newId);
      var name := ComputeNextDefaultName();
      p := p.(serverName := name);
      servers := servers + [p];
      Persist();
    }

    method Copy(id: Uuid, newId: Uuid) returns (p: Option<Profile>)
      modifies this
      ensures View() == After(legacy, old(View()), Op.Copy(id, newId))
      ensures if Contains(old(servers), id) then p.Some? && servers == old(servers) + [p.value] else p.None?
    {
      var i := IndexOf(servers, id);
      if i == |servers| {
        return None;
      }
      var q := servers[i].(id := newId);
      var name := ComputeUniqueName(q.serverName + " copy");
      q := q.(serverName := name);
      servers := servers + [q];
      Persist();
      return Some(q);
    }

    /** Deleting the active server needs another to take over: the program reads the first of those left. */
    method Delete(id: Uuid)
      requires |servers| > 1 && id == activeServerId ==> Without(servers, id) != []
      modifies this
      ensures View() == After(legacy, old(View()), Op.Delete(id))
    {
      if |servers| <= 1 {
        return;
      }
      var wasActive := id == activeServerId;
      servers := Without(servers, id);
      if wasActive {
        Activate(servers[0].id);
      } else {
        Persist();
      }
    }

    method ReplaceAll(profiles: seq<Profile>, activeName: Option<string>)
      modifies this
      ensures View() == After(legacy, old(View()), Op.ReplaceAll(profiles, activeName))
    {
      if profiles == [] {
        return;
      }
      servers := profiles;
      var i := if activeName.Some? then IndexOfName(profiles, activeName.value) else |profiles|;
      activeServerId := if i < |profiles| then profiles[i].id else profiles[0].id;
      SeedLegacyWrapADeviceID();
      Persist();
    }

    method ResetFromFlatKeys(profile: Profile)
      modifies this
      ensures View() == After(legacy, old(View()), Op.Reset(profile))
    {
      servers := [profile];
      activeServerId := profile.id;
      SeedLegacyWrapADeviceID();
      Persist();
    }

    method AddAndActivate(profile: Profile) returns (p: Profile)
      modifies this
      ensures View() == After(legacy, old(View()), Op.AddAndActivate(profile)) && servers == old(servers) + [p]
    {
      var name;
      if profile.serverName == "" {
        name := ComputeNextDefaultName();
      } else {
        name := ComputeUniqueName(profile.serverName);
      }
      p := profile.(serverName := name);
      servers := servers + [p];
      assert servers[|servers| - 1].id == p.id;
      Activate(p.id);
    }

    method ComputeNextDefaultName() returns (name: string)
      ensures name == NextDefaultName(servers)
      ensures name !in Names(servers)
    {
      var names := Names(servers);
      var n := 1;
      ghost var rest := names;
      while Numbered("Server", n) in names
        invariant n >= 1 && rest <= names
        invariant forall k: nat :: k >= n && Numbered("Server", k) in names ==> Numbered("Server", k) in rest
        invariant FirstFree("Server", rest, n) == FirstFree("Server", names, 1)
        decreases |rest|
      {
        rest := DropName("Server", names, rest, n);
        n := n + 1;
      }
      return Numbered("Server", n);
    }

    method ComputeUniqueName(base: string) returns (name: string)
      ensures name == UniqueName(servers, base)
      ensures name !in Names(servers)
    {
      var names := Names(servers);
      if base !in names {
        return base;
      }
      var n := 2;
      ghost var rest := names;
      while Numbered(base + " ", n) in names
        invariant n >= 2 && rest <= names
        invariant forall k: nat :: k >= n && Numbered(base + " ", k) in names ==> Numbered(base + " ", k) in rest
        invariant FirstFree(base + " ", rest, n) == FirstFree(base + " ", names, 2)
        decreases |rest|
      {
        rest := DropName(base + " ", names, rest, n);
        n := n + 1;
      }
      return Numbered(base + " ", n);
    }
  }

  /** One probe of the name search: a taken name leaves the names still to be met. */
  lemma DropName(prefix: string, names: set<string>, rest: set<string>, n: nat) returns (rest': set<string>)
    requires rest <= names && Numbered(prefix, n) in names
    requires forall k: nat :: k >= n && Numbered(prefix, k) in names ==> Numbered(prefix, k) in rest
    ensures rest' <= names && |rest'| < |rest|
    ensures forall k: nat :: k >= n + 1 && Numbered(prefix, k) in names ==> Numbered(prefix, k) in rest'
    ensures FirstFree(prefix, rest', n + 1) == FirstFree(prefix, rest, n)
  {
    rest' := rest - {Numbered(prefix, n)};
    forall k: nat | k >= n + 1 && Numbered(prefix, k) in names ensures Numbered(prefix, k) in rest' {
      if Numbered(prefix, k) == Numbered(prefix, n) {
        NumberedApart(prefix, k, n);
      }
    }
  }

  // ----- what every run keeps ------------------------------------------------------------------

  predicate Distinct(servers: seq<Profile>) {
    forall i, j :: 0 <= i < j < |servers| ==> servers[i].id != servers[j].id
  }

  predicate NamesDistinct(servers: seq<Profile>) {
    forall i, j :: 0 <= i < j < |servers| ==> servers[i].serverName != servers[j].serverName
  }

  /** The active server exists, ids tell servers apart, and what is saved is what is shown. */
  predicate Sound(s: Store) {
    s.servers != [] && Distinct(s.servers) && Contains(s.servers, s.active)
    && s.saved == s.servers && s.savedActive == s.active
  }

  /** A new id is new, and the ids of a restored backup differ: decoding draws a new one for each entry. */
  predicate Legal(s: Store, op: Op) {
    match op
    case AddNew(newId) => !Contains(s.servers, newId)
    case Copy(_, newId) => !Contains(s.servers, newId)
    case AddAndActivate(p) => !Contains(s.servers, p.id)
    case ReplaceAll(profiles, _) => Distinct(profiles)
    case _ => true
  }

  predicate Run(legacy: string, s: Store, ops: seq<Op>)
    decreases |ops|
  {
    ops == [] || (Legal(s, ops[0]) && Run(legacy, After(legacy, s, ops[0]), ops[1..]))
  }

  function Final(legacy: string, s: Store, ops: seq<Op>): Store
    decreases |ops|
  {
    if ops == [] then s else Final(legacy, After(legacy, s, ops[0]), ops[1..])
  }

  lemma ContainsIs(servers: seq<Profile>, id: Uuid)
    ensures Contains(servers, id) <==> exists k :: 0 <= k < |servers| && servers[k].id == id
  {
  }

  lemma {:induction false} WithoutMembers(servers: seq<Profile>, id: Uuid)
    ensures forall p :: p in Without(servers, id) <==> p in servers && p.id != id
  {
    if servers != [] {
      WithoutMembers(servers[1..], id);
      assert forall p :: p in servers <==> p == servers[0] || p in servers[1..];
    }
  }

  lemma {:induction false} WithoutAvoids(servers: seq<Profile>, id: Uuid, other: Uuid)
    requires forall k :: 0 <= k < |servers| ==> servers[k].id != other
    ensures forall k :: 0 <= k < |Without(servers, id)| ==> Without(servers, id)[k].id != other
  {
    if servers != [] {
      WithoutAvoids(servers[1..], id, other);
    }
  }

  lemma DistinctCons(first: Profile, others: seq<Profile>)
    requires Distinct(others) && forall k :: 0 <= k < |others| ==> others[k].id != first.id
    ensures Distinct([first] + others)
  {
  }

  lemma {:induction false} WithoutKeeps(servers: seq<Profile>, id: Uuid)
    requires Distinct(servers)
    ensures Distinct(Without(servers, id))
    ensures |servers| - 1 <= |Without(servers, id)| <= |servers|
  {
    if servers != [] {
      WithoutKeeps(servers[1..], id);
      if servers[0].id == id {
        NothingToDrop(servers[1..], id);
      } else {
        WithoutAvoids(servers[1..], id, servers[0].id);
        DistinctCons(servers[0], Without(servers[1..], id));
      }
    }
  }

  lemma {:induction false} NothingToDrop(servers: seq<Profile>, id: Uuid)
    requires forall k :: 0 <= k < |servers| ==> servers[k].id != id
    ensures Without(servers, id) == servers
  {
    if servers != [] {
      NothingToDrop(servers[1..], id);
    }
  }

  /** From the first launch on. */
  lemma AlwaysSoundFromFirstLaunch(legacy: string, first: Profile, ops: seq<Op>)
    requires Run(legacy, Loaded(legacy, [], 0, first), ops)
    ensures Sound(Final(legacy, Loaded(legacy, [], 0, first), ops))
  {
    AlwaysSound(legacy, Loaded(legacy, [], 0, first), ops);
  }

  /**
   What a start of the app makes of what it finds is sound exactly if the ids saved differ and, where the
   saved active id is lost, the first server was active anyway or the seeding writes both back.
   */
  lemma LoadIsSound(legacy: string, saved: seq<Profile>, savedActive: Uuid, first: Profile)
    ensures Sound(Loaded(legacy, saved, savedActive, first))
            <==> saved == []
                 || (Distinct(saved)
                     && (Contains(saved, savedActive) || savedActive == saved[0].id || Seeded(saved, legacy) != saved))
  {
    var seeded := Seeded(saved, legacy);
    assert forall k :: 0 <= k < |saved| ==> seeded[k].id == saved[k].id;
    var active := Loaded(legacy, saved, savedActive, first).active;
    ContainsIs(saved, active);
    ContainsIs(seeded, active);
  }

  /** From any start of the app on: sound from the first mutation that saves, at the latest. */
  lemma AlwaysSoundFromLoad(legacy: string, saved: seq<Profile>, savedActive: Uuid, first: Profile, ops: seq<Op>)
    requires Distinct(saved) && Run(legacy, Loaded(legacy, saved, savedActive, first), ops)
    ensures var s := Final(legacy, Loaded(legacy, saved, savedActive, first), ops);
      s == Loaded(legacy, saved, savedActive, first) || Sound(s)
  {
    LoadShows(legacy, saved, savedActive, first);
    ShownStays(legacy, Loaded(legacy, saved, savedActive, first), ops);
  }

  /** The part of soundness that is about what is shown. */
  predicate ShownOk(s: Store) { s.servers != [] && Distinct(s.servers) && Contains(s.servers, s.active) }

  lemma LoadShows(legacy: string, saved: seq<Profile>, savedActive: Uuid, first: Profile)
    requires Distinct(saved)
    ensures ShownOk(Loaded(legacy, saved, savedActive, first))
  {
    var seeded := Seeded(saved, legacy);
    assert forall k :: 0 <= k < |saved| ==> seeded[k].id == saved[k].id;
    var active := Loaded(legacy, saved, savedActive, first).active;
    ContainsIs(saved, active);
    ContainsIs(seeded, active);
  }

  /** An operation on what is shown either saves all of it or changes nothing. */
  lemma ShownOpKeeps(legacy: string, s: Store, op: Op)
    requires ShownOk(s) && Legal(s, op)
    ensures After(legacy, s, op) == s || Sound(After(legacy, s, op))
  {
    OpKeeps(legacy, Persisted(s), op);
    assert After(legacy, s, op) == s || After(legacy, s, op) == After(legacy, Persisted(s), op);
  }

  lemma {:induction false} ShownStays(legacy: string, s: Store, ops: seq<Op>)
    requires ShownOk(s) && Run(legacy, s, ops)
    ensures Final(legacy, s, ops) == s || Sound(Final(legacy, s, ops))
    decreases |ops|
  {
    if ops != [] {
      ShownOpKeeps(legacy, s, ops[0]);
      ShownStays(legacy, After(legacy, s, ops[0]), ops[1..]);
      if After(legacy, s, ops[0]) != s {
        AlwaysSound(legacy, After(legacy, s, ops[0]), ops[1..]);
      }
    }
  }

  /** A new profile at the end, with a new id. */
  lemma AppendKeeps(servers: seq<Profile>, p: Profile)
    requires Distinct(servers) && !Contains(servers, p.id)
    ensures Distinct(servers + [p])
    ensures forall id :: Contains(servers + [p], id) <==> Contains(servers, id) || id == p.id
  {
    var all := servers + [p];
    forall id ensures Contains(all, id) <==> Contains(servers, id) || id == p.id {
      assert all[|servers|] == p && forall k :: 0 <= k < |servers| ==> all[k] == servers[k];
    }
  }

  lemma SeedKeeps(servers: seq<Profile>, legacy: string)
    requires Distinct(servers)
    ensures Distinct(Seeded(servers, legacy))
    ensures forall id :: Contains(servers, id) ==> Contains(Seeded(servers, legacy), id)
  {
    var seeded := Seeded(servers, legacy);
    assert forall k :: 0 <= k < |servers| ==> seeded[k].id == servers[k].id;
    forall id | Contains(servers, id) ensures Contains(seeded, id) {
      assert seeded[IndexOf(servers, id)].id == id;
    }
  }

  /** In a sound store it always has one. */
  lemma DeleteIsSafe(s: Store, id: Uuid)
    requires Sound(s) && |s.servers| > 1
    ensures Without(s.servers, id) != []
  {
    WithoutKeeps(s.servers, id);
  }

  lemma DeleteKeeps(legacy: string, s: Store, id: Uuid)
    requires Sound(s)
    ensures Sound(After(legacy, s, Delete(id)))
  {
    WithoutKeeps(s.servers, id);
    WithoutMembers(s.servers, id);
    var left := Without(s.servers, id);
    var active := s.servers[IndexOf(s.servers, s.active)];
    assert active in s.servers;
    if id != s.active {
      assert active in left;
      ContainsIs(left, s.active);
    }
  }

  lemma UpdateKeeps(legacy: string, s: Store, p: Profile)
    requires Sound(s)
    ensures Sound(After(legacy, s, Update(p)))
  {
    var i := IndexOf(s.servers, p.id);
    if i < |s.servers| {
      var servers' := s.servers[i := p];
      assert forall k :: 0 <= k < |s.servers| ==> servers'[k].id == s.servers[k].id;
      assert servers'[IndexOf(s.servers, s.active)].id == s.active;
    }
  }

  lemma OpKeeps(legacy: string, s: Store, op: Op)
    requires Sound(s) && Legal(s, op)
    ensures Sound(After(legacy, s, op))
  {
    var s' := After(legacy, s, op);
    match op
    case Activate(_) =>
    case Update(p) => UpdateKeeps(legacy, s, p);
    case Delete(id) => DeleteKeeps(legacy, s, id);
    case ReplaceAll(profiles, _) =>
      if profiles != [] {
        SeedKeeps(profiles, legacy);
        ContainsIs(profiles, s'.active);
      }
    case Reset(profile) => SeedKeeps([profile], legacy);
    case _ =>
      if s' != s {
        AppendKeeps(s.servers, s'.servers[|s.servers|]);
      }
  }

  /** Over any run of mutations the list is non-empty, ids are distinct, the active server is in it, and it is saved. */
  lemma {:induction false} AlwaysSound(legacy: string, s: Store, ops: seq<Op>)
    requires Sound(s) && Run(legacy, s, ops)
    ensures Sound(Final(legacy, s, ops))
    decreases |ops|
  {
    if ops != [] {
      OpKeeps(legacy, s, ops[0]);
      AlwaysSound(legacy, After(legacy, s, ops[0]), ops[1..]);
    }
  }

  /**
   What a caller can check beforehand: a rename does not take another server's name, and a restored
   backup has no name twice. The other operations choose a free name themselves.
   */
  predicate KeepsNames(s: Store, op: Op) {
    match op
    case Update(p) =>
      var i := IndexOf(s.servers, p.id);
      i < |s.servers| ==>
        forall k :: 0 <= k < |s.servers| && k != i ==> s.servers[k].serverName != p.serverName
    case ReplaceAll(profiles, _) => profiles == [] || NamesDistinct(profiles)
    case _ => true
  }

  /** Distinct names stay distinct exactly then, for every operation. */
  lemma NamesStayDistinct(legacy: string, s: Store, op: Op)
    requires NamesDistinct(s.servers)
    ensures NamesDistinct(After(legacy, s, op).servers) <==> KeepsNames(s, op)
  {
    match op
    case AddNew(_) => DefaultNameIsFree(s.servers);
    case Copy(id, _) =>
      var i := IndexOf(s.servers, id);
      if i < |s.servers| {
        UniqueNameIsFree(s.servers, s.servers[i].serverName + " copy");
      }
    case AddAndActivate(p) =>
      DefaultNameIsFree(s.servers);
      UniqueNameIsFree(s.servers, p.serverName);
    case Delete(id) => WithoutKeepsNames(s.servers, id);
    case Update(p) =>
      if Contains(s.servers, p.id) {
        UpdateNames(s.servers, p);
      }
    case ReplaceAll(profiles, _) => SeededNames(profiles, legacy);
    case _ =>
  }

  lemma UpdateNames(servers: seq<Profile>, p: Profile)
    requires NamesDistinct(servers) && Contains(servers, p.id)
    ensures var i := IndexOf(servers, p.id);
      NamesDistinct(servers[i := p])
      <==> forall k :: 0 <= k < |servers| && k != i ==> servers[k].serverName != p.serverName
  {
    var i := IndexOf(servers, p.id);
    var servers' := servers[i := p];
    if NamesDistinct(servers') {
      forall k | 0 <= k < |servers| && k != i ensures servers[k].serverName != p.serverName {
        assert servers'[k] == servers[k] && servers'[i] == p;
      }
    }
  }

  lemma SeededNames(servers: seq<Profile>, legacy: string)
    ensures NamesDistinct(Seeded(servers, legacy)) <==> NamesDistinct(servers)
  {
    var seeded := Seeded(servers, legacy);
    assert forall k :: 0 <= k < |servers| ==> seeded[k].serverName == servers[k].serverName;
  }

  /** A rename collides exactly if a server with another id has that name. */
  lemma RenameCollides(legacy: string, s: Store, p: Profile)
    requires Sound(s) && NamesDistinct(s.servers)
    ensures NamesDistinct(After(legacy, s, Update(p)).servers)
            <==> !Contains(s.servers, p.id)
                 || forall k :: 0 <= k < |s.servers| && s.servers[k].id != p.id
                                ==> s.servers[k].serverName != p.serverName
  {
    NamesStayDistinct(legacy, s, Update(p));
  }

  /** A run of operations that each keep the names distinct. */
  predicate NamingRun(legacy: string, s: Store, ops: seq<Op>)
    decreases |ops|
  {
    ops == [] || (KeepsNames(s, ops[0]) && NamingRun(legacy, After(legacy, s, ops[0]), ops[1..]))
  }

  lemma {:induction false} NamesAlwaysDistinct(legacy: string, s: Store, ops: seq<Op>)
    requires NamesDistinct(s.servers) && NamingRun(legacy, s, ops)
    ensures NamesDistinct(Final(legacy, s, ops).servers)
    decreases |ops|
  {
    if ops != [] {
      NamesStayDistinct(legacy, s, ops[0]);
      NamesAlwaysDistinct(legacy, After(legacy, s, ops[0]), ops[1..]);
    }
  }

  lemma DefaultNameIsFree(servers: seq<Profile>)
    ensures forall k :: 0 <= k < |servers| ==> servers[k].serverName != NextDefaultName(servers)
  {
    FirstFreeIsLeast("Server", Names(servers), 1);
    assert forall k :: 0 <= k < |servers| ==> servers[k] in servers && servers[k].serverName in Names(servers);
  }

  lemma UniqueNameIsFree(servers: seq<Profile>, base: string)
    ensures UniqueName(servers, base) !in Names(servers)
    ensures forall k :: 0 <= k < |servers| ==> servers[k].serverName != UniqueName(servers, base)
  {
    FirstFreeIsLeast(base + " ", Names(servers), 2);
    assert forall k :: 0 <= k < |servers| ==> servers[k] in servers && servers[k].serverName in Names(servers);
  }

  lemma {:induction false} WithoutKeepsNames(servers: seq<Profile>, id: Uuid)
    requires NamesDistinct(servers)
    ensures NamesDistinct(Without(servers, id))
    ensures forall p :: p in Without(servers, id) ==> p in servers
  {
    if servers != [] {
      WithoutKeepsNames(servers[1..], id);
      var left := Without(servers[1..], id);
      forall k | 0 <= k < |left| ensures left[k].serverName != servers[0].serverName {
        assert left[k] in servers[1..];
      }
    }
  }

  /** A rename may break that: update keeps whatever name it is given. */
  lemma UpdateMayCollide()
    ensures exists s: Store, p: Profile ::
      Sound(s) && NamesDistinct(s.servers) && !NamesDistinct(After("", s, Update(p)).servers)
  {
    var a, b := Profile(1, "Server1", false, "", 0), Profile(2, "Server2", false, "", 0);
    var s := Store([a, b], 1, [a, b], 1);
    var p := b.(serverName := "Server1");
    var s' := After("", s, Update(p));
    assert IndexOf([a, b], 2) == 1;
    assert s'.servers[0].serverName == s'.servers[1].serverName;
    assert Sound(s) && NamesDistinct(s.servers) && !NamesDistinct(s'.servers);
  }

  /** A default name is the least free one, found within one probe more than there are servers. */
  lemma DefaultNameIsLeast(servers: seq<Profile>)
    ensures exists n: nat :: 1 <= n <= |servers| + 1 && IsLeastDefault(servers, n)
  {
    FirstFreeIsLeast("Server", Names(servers), 1);
    NamesBound(servers);
    assert IsLeastDefault(servers, FirstFree("Server", Names(servers), 1));
  }

  predicate IsLeastDefault(servers: seq<Profile>, n: nat) {
    && NextDefaultName(servers) == Numbered("Server", n)
    && (forall k :: 0 <= k < |servers| ==> servers[k].serverName != Numbered("Server", n))
    && (forall m: nat :: 1 <= m < n ==>
          exists k :: 0 <= k < |servers| && servers[k].serverName == Numbered("Server", m))
  }

  lemma {:induction false} NamesBound(servers: seq<Profile>)
    ensures |Names(servers)| <= |servers|
    ensures forall name :: name in Names(servers) <==> exists k :: 0 <= k < |servers| && servers[k].serverName == name
  {
    if servers != [] {
      NamesBound(servers[1..]);
      assert Names(servers) == Names(servers[1..]) + {servers[0].serverName} by {
        assert forall p :: p in servers <==> p == servers[0] || p in servers[1..];
      }
    }
  }

  /** Starting the app again shows the store as the last mutation left it, legacy ids seeded, the same server active. */
  lemma ReloadIsFaithful(legacy: string, s: Store, first: Profile)
    requires Sound(s)
    ensures var s' := Loaded(legacy, s.saved, s.savedActive, first);
      && s'.servers == Seeded(s.servers, legacy) && s'.active == s.active && Sound(s')
      && Loaded(legacy, s'.saved, s'.savedActive, first) == s'
  {
    SeedKeeps(s.servers, legacy);
    var seeded := Seeded(s.servers, legacy);
    assert Seeded(seeded, legacy) == seeded;
  }

  // ----- what each operation does ---------------------------------------------------------------

  /** The profile of a server, if it exists. */
  function Lookup(servers: seq<Profile>, id: Uuid): Option<Profile> {
    var i := IndexOf(servers, id);
    if i < |servers| then Some(servers[i]) else None
  }

  lemma LookupIs(servers: seq<Profile>, k: nat)
    requires Distinct(servers) && k < |servers|
    ensures Lookup(servers, servers[k].id) == Some(servers[k])
  {
  }

  /** Activating a server of the list makes it the active one; an unknown id changes nothing. */
  lemma ActivateWins(legacy: string, s: Store, id: Uuid)
    requires Sound(s)
    ensures var s' := After(legacy, s, Activate(id));
      s'.servers == s.servers && s'.active == if Lookup(s.servers, id).Some? then id else s.active
  {
  }

  /** An update gives one server its new profile, in its place, and touches no other. */
  lemma UpdateChangesOne(legacy: string, s: Store, p: Profile, id: Uuid)
    requires Sound(s)
    ensures var s' := After(legacy, s, Update(p));
      && |s'.servers| == |s.servers| && s'.active == s.active
      && (forall k :: 0 <= k < |s.servers| ==> s'.servers[k].id == s.servers[k].id)
      && Lookup(s'.servers, id)
         == (if id == p.id && Lookup(s.servers, id).Some? then Some(p) else Lookup(s.servers, id))
  {
    OpKeeps(legacy, s, Update(p));
    var s', i := After(legacy, s, Update(p)), IndexOf(s.servers, id);
    assert forall k :: 0 <= k < |s.servers| ==> s'.servers[k].id == s.servers[k].id;
    if i < |s.servers| {
      LookupIs(s'.servers, i);
    } else {
      ContainsIs(s'.servers, id);
      ContainsIs(s.servers, id);
    }
  }

  /** A copy is its original but for the id and the name; a new server is the default one; neither becomes active. */
  lemma AdditionsAppend(legacy: string, s: Store, id: Uuid, newId: Uuid)
    requires Sound(s)
    ensures var s' := After(legacy, s, AddNew(newId));
      && s'.active == s.active && |s'.servers| == |s.servers| + 1 && s.servers <= s'.servers
      && s'.servers[|s.servers|] == Profile(newId, NextDefaultName(s.servers), false, "", 0)
    ensures var s', p := After(legacy, s, Copy(id, newId)), Lookup(s.servers, id);
      && s'.active == s.active
      && (if p.None? then s' == s
          else
            && |s'.servers| == |s.servers| + 1 && s.servers <= s'.servers
            && s'.servers[|s.servers|].id == newId
            && s'.servers[|s.servers|].(id := id, serverName := p.value.serverName) == p.value)
  {
  }

  /** A linked server is appended as it came, but for its name, and becomes the active one. */
  lemma LinkedServerIsActive(legacy: string, s: Store, p: Profile)
    requires Sound(s) && !Contains(s.servers, p.id)
    ensures var s' := After(legacy, s, AddAndActivate(p));
      && s'.active == p.id && |s'.servers| == |s.servers| + 1 && s.servers <= s'.servers
      && s'.servers[|s.servers|].(serverName := p.serverName) == p
      && (p.serverName != "" && p.serverName !in Names(s.servers)
          ==> s'.servers[|s.servers|].serverName == p.serverName)
  {
  }

  lemma {:induction false} WithoutIs(servers: seq<Profile>, id: Uuid)
    requires Distinct(servers)
    ensures var i := IndexOf(servers, id);
      Without(servers, id) == if i < |servers| then servers[..i] + servers[i + 1..] else servers
  {
    if servers != [] {
      if servers[0].id == id {
        NothingToDrop(servers[1..], id);
      } else {
        WithoutIs(servers[1..], id);
      }
    }
  }

  /**
   A deletion takes one server out and leaves the others in their order; the active one stays active, or if
   it went the first of those left takes over. The last server is not deleted.
   */
  lemma DeleteTakesOne(legacy: string, s: Store, id: Uuid)
    requires Sound(s)
    ensures var s', i := After(legacy, s, Delete(id)), IndexOf(s.servers, id);
      if |s.servers| == 1 then s' == s
      else
        && s'.servers == (if i < |s.servers| then s.servers[..i] + s.servers[i + 1..] else s.servers)
        && s'.servers != []
        && s'.active == if id == s.active then s'.servers[0].id else s.active
  {
    WithoutIs(s.servers, id);
    if |s.servers| > 1 {
      DeleteIsSafe(s, id);
    }
  }

  /** A restored backup: its servers, in order; active is the first of that name, or the first of all. */
  lemma RestoreChoosesTheActive(legacy: string, s: Store, profiles: seq<Profile>, activeName: Option<string>)
    requires profiles != []
    ensures var s' := After(legacy, s, ReplaceAll(profiles, activeName));
      && |s'.servers| == |profiles|
      && (forall k :: 0 <= k < |profiles| ==>
            if legacy != "" && profiles[k].useWrapA && profiles[k].deviceID == ""
            then s'.servers[k] == profiles[k].(deviceID := legacy) else s'.servers[k] == profiles[k])
      && (forall k :: 0 <= k < |profiles| && activeName == Some(profiles[k].serverName)
                      && (forall j :: 0 <= j < k ==> profiles[j].serverName != profiles[k].serverName)
            ==> s'.active == profiles[k].id)
      && ((forall k :: 0 <= k < |profiles| ==> activeName != Some(profiles[k].serverName))
            ==> s'.active == profiles[0].id)
  {
  }
}

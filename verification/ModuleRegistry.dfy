/**
 The registry of modules with directories under /proc, and the generic set-up and exit handlers
 that walk a module tree. Registration may fail, and the handlers pay no attention to that.
 */
module ModuleRegistry {

  datatype Module = Module(name: string, hasRegs: bool, children: seq<Module>)

  datatype Entry = Entry(id: int, name: string, procs: seq<string>)

  /** How the kernel treats a new file in a module's directory: it is made, memory for its record is
      short, or creating it fails. */
  datatype File = Made | NoRoom | Refused

  /** How the kernel treats one registration: whether it goes through, and what becomes of the file in
      the module's directory afterwards. */
  datatype Luck = Fine(file: File) | NoMemory | NoDirectory | Interrupted(file: File)

  datatype Registry = Registry(entries: seq<Entry>, nextId: nat, attempts: nat)

  const MDIO := "mdio"
  const ENODEV: int := -19
  const ENOMEM: int := -12
  const EINTR: int := -4
  const EEXIST: int := -17

  // ---- trees --------------------------------------------------------------------------------

  /** The modules of a tree, children before their parent. */
  function PostOrder(m: Module): seq<Module> {
    Forest(m.children) + [m]
  }

  function Forest(ms: seq<Module>): seq<Module> {
    if ms == [] then [] else PostOrder(ms[0]) + Forest(ms[1..])
  }

  lemma {:induction false} ForestSnoc(ms: seq<Module>, m: Module)
    ensures Forest(ms + [m]) == Forest(ms) + PostOrder(m)
  {
    if ms == [] {
      assert [m][1..] == [];
      assert Forest([m]) == PostOrder(m) + Forest([]);
      assert [] + [m] == [m];
    } else {
      assert (ms + [m])[1..] == ms[1..] + [m];
      ForestSnoc(ms[1..], m);
      assert Forest(ms + [m]) == PostOrder(ms[0]) + (Forest(ms[1..]) + PostOrder(m));
    }
  }

  /** Every module comes after its children. */
  predicate ParentsLast(ms: seq<Module>) {
    forall i, k :: 0 <= i < |ms| && 0 <= k < |ms[i].children| ==> ms[i].children[k] in ms[..i]
  }

  lemma {:induction false} ParentsLastConcat(a: seq<Module>, b: seq<Module>)
    requires ParentsLast(a) && ParentsLast(b)
    ensures ParentsLast(a + b)
  {
    var all := a + b;
    forall i, k | 0 <= i < |all| && 0 <= k < |all[i].children| ensures all[i].children[k] in all[..i] {
      if i < |a| {
        assert all[..i] == a[..i];
      } else {
        assert all[..i] == a + b[..i - |a|];
      }
    }
  }

  /** A tree is listed with every module after its children, and its root last. */
  lemma {:induction false} ChildrenFirst(m: Module)
    ensures ParentsLast(PostOrder(m))
    ensures PostOrder(m)[|PostOrder(m)| - 1] == m
  {
    var below, all := Forest(m.children), PostOrder(m);
    ForestChildrenFirst(m.children);
    forall i, k | 0 <= i < |all| && 0 <= k < |all[i].children| ensures all[i].children[k] in all[..i] {
      assert all[..i] == below[..i];
      if i == |below| {
        assert below[..i] == below;
      }
    }
  }

  lemma {:induction false} ForestChildrenFirst(ms: seq<Module>)
    ensures ParentsLast(Forest(ms))
    ensures forall k :: 0 <= k < |ms| ==> ms[k] in Forest(ms)
  {
    if ms != [] {
      var rest := ms[1..];
      ChildrenFirst(ms[0]);
      ForestChildrenFirst(rest);
      ParentsLastConcat(PostOrder(ms[0]), Forest(rest));
      assert ms[0] in PostOrder(ms[0]);
      forall k | 0 <= k < |ms| ensures ms[k] in Forest(ms) {
        if k > 0 {
          assert ms[k] == rest[k - 1];
        }
      }
    }
  }

  // ---- what the calls do to the list --------------------------------------------------------

  /** The first entry of that name, or the end of the list. */
  function Find(es: seq<Entry>, name: string): (i: nat)
    ensures i <= |es|
    ensures i < |es| ==> es[i].name == name
    ensures forall k :: 0 <= k < i ==> es[k].name != name
  {
    if es == [] || es[0].name == name then 0 else 1 + Find(es[1..], name)
  }

  predicate Named(es: seq<Entry>, name: string) {
    exists k :: 0 <= k < |es| && es[k].name == name
  }

  function AddProc(es: seq<Entry>, name: string, proc: string, file: File): (r: seq<Entry>)
    ensures |r| == |es|
    ensures forall k :: 0 <= k < |es| ==> r[k].id == es[k].id && r[k].name == es[k].name
    ensures forall k :: 0 <= k < |es| && es[k].name != name ==> r[k] == es[k]
  {
    var i := Find(es, name);
    if i == |es| || proc in es[i].procs || file != Made then es
    else es[i := es[i].(procs := es[i].procs + [proc])]
  }

  function Register(luck: nat -> Luck, s: Registry, m: Module): Registry {
    var s1 := s.(attempts := s.attempts + 1);
    match luck(s.attempts)
    case NoMemory => s1
    case NoDirectory => s1
    case Interrupted(file) => s1.(entries := WithRegs(s.entries, m, file))
    case Fine(file) =>
      s1.(entries := WithRegs(s.entries + [Entry(s.nextId, m.name, [])], m, file), nextId := s.nextId + 1)
  }

  function WithRegs(es: seq<Entry>, m: Module, file: File): seq<Entry> {
    if m.hasRegs then AddProc(es, m.name, MDIO, file) else es
  }

  function RegisterAll(luck: nat -> Luck, s: Registry, ms: seq<Module>): Registry
    decreases |ms|
  {
    if ms == [] then s else RegisterAll(luck, Register(luck, s, ms[0]), ms[1..])
  }

  lemma {:induction false} RegisterConcat(luck: nat -> Luck, s: Registry, ms: seq<Module>, ns: seq<Module>)
    ensures RegisterAll(luck, s, ms + ns) == RegisterAll(luck, RegisterAll(luck, s, ms), ns)
    decreases |ms|
  {
    if ms == [] {
      assert ms + ns == ns;
    } else {
      assert (ms + ns)[1..] == ms[1..] + ns;
      RegisterConcat(luck, Register(luck, s, ms[0]), ms[1..], ns);
    }
  }

  function Unregister(es: seq<Entry>, name: string): seq<Entry> {
    var i := Find(es, name);
    if i == |es| then es else es[..i] + es[i + 1..]
  }

  function UnregisterAll(es: seq<Entry>, ms: seq<Module>): seq<Entry> {
    if ms == [] then es else UnregisterAll(Unregister(es, ms[0].name), ms[1..])
  }

  lemma {:induction false} UnregisterConcat(es: seq<Entry>, ms: seq<Module>, ns: seq<Module>)
    ensures UnregisterAll(es, ms + ns) == UnregisterAll(UnregisterAll(es, ms), ns)
  {
    if ms == [] {
      assert ms + ns == ns;
    } else {
      assert (ms + ns)[1..] == ms[1..] + ns;
      UnregisterConcat(Unregister(es, ms[0].name), ms[1..], ns);
    }
  }

  // ---- set-up -------------------------------------------------------------------------------

  predicate NoTwice(procs: seq<string>) {
    forall i, j :: 0 <= i < j < |procs| ==> procs[i] != procs[j]
  }

  /** Entry identifiers rise along the list and stay below the next one, and no directory has a file
      twice. */
  predicate Ordered(s: Registry) {
    && (forall i :: 0 <= i < |s.entries| ==> NoTwice(s.entries[i].procs))
    && (forall i, j :: 0 <= i < j < |s.entries| ==> s.entries[i].id < s.entries[j].id)
    && (forall i :: 0 <= i < |s.entries| ==> s.entries[i].id < s.nextId)
  }

  lemma {:induction false} RegisterKeepsOrder(luck: nat -> Luck, s: Registry, m: Module)
    requires Ordered(s)
    ensures Ordered(Register(luck, s, m))
  {
  }

  lemma {:induction false} SetupKeepsOrder(luck: nat -> Luck, s: Registry, ms: seq<Module>)
    requires Ordered(s)
    ensures Ordered(RegisterAll(luck, s, ms))
    decreases |ms|
  {
    if ms == [] {
    } else {
      RegisterKeepsOrder(luck, s, ms[0]);
      SetupKeepsOrder(luck, Register(luck, s, ms[0]), ms[1..]);
    }
  }

  lemma {:induction false} UnregisterKeepsOrder(s: Registry, name: string)
    requires Ordered(s)
    ensures Ordered(s.(entries := Unregister(s.entries, name)))
  {
  }

  lemma {:induction false} ExitKeepsOrder(s: Registry, ms: seq<Module>)
    requires Ordered(s)
    ensures Ordered(s.(entries := UnregisterAll(s.entries, ms)))
    decreases |ms|
  {
    if ms == [] {
    } else {
      UnregisterKeepsOrder(s, ms[0].name);
      ExitKeepsOrder(s.(entries := Unregister(s.entries, ms[0].name)), ms[1..]);
    }
  }

  function EntryOf(m: Module, id: nat): Entry {
    Entry(id, m.name, if m.hasRegs then [MDIO] else [])
  }

  /** The entries set-up is meant to add. */
  function Listing(ms: seq<Module>, id: nat): seq<Entry> {
    if ms == [] then [] else [EntryOf(ms[0], id)] + Listing(ms[1..], id + 1)
  }

  lemma {:induction false} ListingAt(ms: seq<Module>, id: nat, i: nat)
    requires i < |ms|
    ensures |Listing(ms, id)| == |ms| && Listing(ms, id)[i] == EntryOf(ms[i], id + i)
  {
    if i > 0 {
      ListingAt(ms[1..], id + 1, i - 1);
    } else if |ms| > 1 {
      ListingAt(ms[1..], id + 1, 0);
    }
  }

  predicate AllFine(luck: nat -> Luck, from: nat, n: nat) {
    forall i :: from <= i < from + n ==> luck(i) == Fine(Made)
  }

  predicate Distinct(ms: seq<Module>) {
    forall i, j :: 0 <= i < j < |ms| ==> ms[i].name != ms[j].name
  }

  predicate Fresh(es: seq<Entry>, ms: seq<Module>) {
    forall i :: 0 <= i < |ms| ==> !Named(es, ms[i].name)
  }

  /** Where nothing fails, a tree of distinct new names is listed in post-order, with consecutive
      identifiers, behind what was there. */
  lemma {:induction false} SetupLists(luck: nat -> Luck, s: Registry, ms: seq<Module>)
    requires AllFine(luck, s.attempts, |ms|) && Distinct(ms) && Fresh(s.entries, ms)
    ensures
      RegisterAll(luck, s, ms)
      == Registry(s.entries + Listing(ms, s.nextId), s.nextId + |ms|, s.attempts + |ms|)
    decreases |ms|
  {
    if ms == [] {
      assert s.entries + [] == s.entries;
    } else {
      var s1, e := Register(luck, s, ms[0]), EntryOf(ms[0], s.nextId);
      assert luck(s.attempts) == Fine(Made);
      RegisterNew(luck, s, ms[0]);
      StaysFresh(s.entries, e, ms);
      SetupLists(luck, s1, ms[1..]);
      Append(s.entries, e, Listing(ms[1..], s.nextId + 1));
    }
  }

  lemma {:induction false} Append(es: seq<Entry>, e: Entry, fs: seq<Entry>)
    ensures es + [e] + fs == es + ([e] + fs)
  {
  }

  lemma {:induction false} StaysFresh(es: seq<Entry>, e: Entry, ms: seq<Module>)
    requires ms != [] && Distinct(ms) && Fresh(es, ms) && e.name == ms[0].name
    ensures Fresh(es + [e], ms[1..])
  {
    var rest, all := ms[1..], es + [e];
    forall i | 0 <= i < |rest| ensures !Named(all, rest[i].name) {
      assert rest[i] == ms[i + 1] && !Named(es, ms[i + 1].name) && ms[0].name != ms[i + 1].name;
      forall k | 0 <= k < |all| ensures all[k].name != rest[i].name {
        assert k < |es| ==> all[k] == es[k];
      }
    }
  }

  lemma {:induction false} RegisterNew(luck: nat -> Luck, s: Registry, m: Module)
    requires luck(s.attempts) == Fine(Made) && !Named(s.entries, m.name)
    ensures Register(luck, s, m) == Registry(s.entries + [EntryOf(m, s.nextId)], s.nextId + 1, s.attempts + 1)
  {
    var e := Entry(s.nextId, m.name, []);
    FindLast(s.entries, e);
    assert [] + [MDIO] == [MDIO];
  }

  lemma {:induction false} FindLast(es: seq<Entry>, e: Entry)
    requires !Named(es, e.name)
    ensures Find(es + [e], e.name) == |es|
  {
    var all := es + [e];
    assert all[|es|] == e;
    forall k | 0 <= k < |es| ensures all[k].name != e.name {
      assert all[k] == es[k];
    }
  }

  /** A module of a name registered before gets an entry without file: its file goes to the older entry,
      unless that has one. */
  lemma {:induction false} FileGoesToFirst(luck: nat -> Luck, s: Registry, m: Module)
    requires luck(s.attempts) == Fine(Made) && m.hasRegs && Named(s.entries, m.name)
    ensures
      var es, i := Register(luck, s, m).entries, Find(s.entries, m.name);
      && |es| == |s.entries| + 1 && es[|s.entries|] == Entry(s.nextId, m.name, [])
      && i < |s.entries| && MDIO in es[i].procs
      && (forall k :: 0 <= k < |s.entries| && k != i ==> es[k] == s.entries[k])
  {
    var all, i := s.entries + [Entry(s.nextId, m.name, [])], Find(s.entries, m.name);
    FindStays(s.entries, Entry(s.nextId, m.name, []), m.name);
    assert i < |s.entries| && all[i] == s.entries[i];
  }

  lemma {:induction false} FindStays(es: seq<Entry>, e: Entry, name: string)
    requires Named(es, name)
    ensures Find(es + [e], name) == Find(es, name) < |es|
  {
    var all := es + [e];
    assert forall k :: 0 <= k < |es| ==> all[k] == es[k];
  }

  // ---- set-up, then exit --------------------------------------------------------------------

  function Count(es: seq<Entry>, name: string): nat {
    if es == [] then 0 else (if es[0].name == name then 1 else 0) + Count(es[1..], name)
  }

  function Wanted(ms: seq<Module>, name: string): nat {
    if ms == [] then 0 else (if ms[0].name == name then 1 else 0) + Wanted(ms[1..], name)
  }

  lemma {:induction false} CountConcat(es: seq<Entry>, fs: seq<Entry>, name: string)
    ensures Count(es + fs, name) == Count(es, name) + Count(fs, name)
  {
    if es == [] {
      assert es + fs == fs;
    } else {
      assert (es + fs)[1..] == es[1..] + fs;
      CountConcat(es[1..], fs, name);
    }
  }

  lemma {:induction false} CountNames(es: seq<Entry>, fs: seq<Entry>, name: string)
    requires |es| == |fs| && forall k :: 0 <= k < |es| ==> es[k].name == fs[k].name
    ensures Count(es, name) == Count(fs, name)
  {
    if es == [] {
    } else {
      CountNames(es[1..], fs[1..], name);
    }
  }

  lemma {:induction false} CountNamed(es: seq<Entry>, name: string)
    ensures Count(es, name) > 0 <==> Named(es, name)
  {
    if es == [] {
    } else {
      CountNamed(es[1..], name);
      if Named(es[1..], name) {
        var k :| 0 <= k < |es[1..]| && es[1..][k].name == name;
        assert es[k + 1].name == name;
      }
      if Named(es, name) && es[0].name != name {
        var k :| 0 <= k < |es| && es[k].name == name;
        assert es[1..][k - 1].name == name;
      }
    }
  }

  lemma {:induction false} RegisterBehind(luck: nat -> Luck, s: Registry, k: nat, m: Module)
    requires k <= |s.entries| && !Named(s.entries[..k], m.name)
    ensures
      var es := Register(luck, s, m).entries;
      && k <= |es| && es[..k] == s.entries[..k]
      && forall name :: Count(es[k..], name) <= Count(s.entries[k..], name) + if m.name == name then 1 else 0
  {
    var es := Register(luck, s, m).entries;
    assert forall i :: 0 <= i < k ==> s.entries[i].name != m.name by {
      assert forall i :: 0 <= i < k ==> s.entries[..k][i] == s.entries[i];
    }
    var added := if luck(s.attempts).Fine? then [Entry(s.nextId, m.name, [])] else [];
    forall name ensures Count(es[k..], name) <= Count(s.entries[k..], name) + if m.name == name then 1 else 0 {
      CountConcat(s.entries[k..], added, name);
      CountNames(es[k..], s.entries[k..] + added, name);
    }
  }

  /** Whatever fails, set-up of new names leaves the first k entries alone and adds behind them at
      most one entry of a name for each module of that name. */
  lemma {:induction false} SetupAppends(luck: nat -> Luck, s: Registry, k: nat, ms: seq<Module>)
    requires k <= |s.entries| && Fresh(s.entries[..k], ms)
    ensures
      var es := RegisterAll(luck, s, ms).entries;
      && k <= |es| && es[..k] == s.entries[..k]
      && forall name :: Count(es[k..], name) <= Count(s.entries[k..], name) + Wanted(ms, name)
    decreases |ms|
  {
    if ms == [] {
    } else {
      RegisterBehind(luck, s, k, ms[0]);
      forall i | 0 <= i < |ms[1..]| ensures !Named(s.entries[..k], ms[1..][i].name) {
        assert !Named(s.entries[..k], ms[i + 1].name);
      }
      SetupAppends(luck, Register(luck, s, ms[0]), k, ms[1..]);
    }
  }

  lemma {:induction false} NoneLeft(es: seq<Entry>)
    requires forall name :: Count(es, name) == 0
    ensures es == []
  {
    if es != [] {
      CountNamed(es, es[0].name);
    }
  }

  /** Exit removes everything behind the first k entries that its modules account for. */
  lemma {:induction false} ExitClears(es: seq<Entry>, k: nat, ms: seq<Module>)
    requires k <= |es| && Fresh(es[..k], ms)
    requires forall name :: Count(es[k..], name) <= Wanted(ms, name)
    ensures UnregisterAll(es, ms) == es[..k]
  {
    if ms == [] {
      NoneLeft(es[k..]);
      assert es == es[..k] + es[k..];
    } else {
      var es1 := Unregister(es, ms[0].name);
      UnregisterBehind(es, k, ms[0].name);
      forall i | 0 <= i < |ms[1..]| ensures !Named(es1[..k], ms[1..][i].name) {
        assert !Named(es[..k], ms[i + 1].name);
      }
      forall name ensures Count(es1[k..], name) <= Wanted(ms[1..], name) {
        assert Count(es[k..], name) <= Wanted(ms, name);
      }
      ExitClears(es1, k, ms[1..]);
    }
  }

  lemma {:induction false} UnregisterBehind(es: seq<Entry>, k: nat, name: string)
    requires k <= |es| && !Named(es[..k], name)
    ensures
      var es1 := Unregister(es, name);
      && k <= |es1| && es1[..k] == es[..k]
      && forall n :: Count(es1[k..], n) == if n == name && Count(es[k..], n) > 0 then Count(es[k..], n) - 1
                                           else Count(es[k..], n)
  {
    var i, es1 := Find(es, name), Unregister(es, name);
    assert forall j :: 0 <= j < k ==> es[..k][j] == es[j];
    if i == |es| {
      assert !Named(es[k..], name);
      CountNamed(es[k..], name);
    } else {
      assert es[k..] == es[k..i] + [es[i]] + es[i + 1..];
      assert es1[k..] == es[k..i] + es[i + 1..];
      forall n ensures Count(es[k..], n) == Count(es1[k..], n) + if n == name then 1 else 0 {
        CountConcat(es[k..i], [es[i]], n);
        CountConcat(es[k..i] + [es[i]], es[i + 1..], n);
        CountConcat(es[k..i], es[i + 1..], n);
        assert Count([es[i]], n) == if n == name then 1 else 0;
      }
    }
  }

  // An identifier that is in no entry.
  predicate Gone(es: seq<Entry>, id: int) {
    forall k :: 0 <= k < |es| ==> es[k].id != id
  }

  predicate Unique(es: seq<Entry>) {
    forall i, j :: 0 <= i < j < |es| ==> es[i].id != es[j].id
  }

  lemma {:induction false} GoneStaysGone(es: seq<Entry>, id: int, ms: seq<Module>)
    requires Gone(es, id)
    ensures Gone(UnregisterAll(es, ms), id)
  {
    if ms == [] {
    } else {
      GoneStaysGone(Unregister(es, ms[0].name), id, ms[1..]);
    }
  }

  // Entry k is the first of its name.
  predicate First(es: seq<Entry>, k: nat) {
    k < |es| && Unique(es) && forall j :: 0 <= j < k ==> es[j].name != es[k].name
  }

  lemma {:induction false} UnregisterFirst(es: seq<Entry>, k: nat)
    requires First(es, k)
    ensures Gone(Unregister(es, es[k].name), es[k].id)
  {
  }

  // The place of entry k after the first entry of another name is gone.
  function Shifted(es: seq<Entry>, k: nat, name: string): nat {
    if Find(es, name) < k then k - 1 else k
  }

  lemma {:induction false} UnregisterOther(es: seq<Entry>, k: nat, name: string)
    requires First(es, k) && name != es[k].name
    ensures First(Unregister(es, name), Shifted(es, k, name))
    ensures Unregister(es, name)[Shifted(es, k, name)] == es[k]
  {
    var i, es1, k1 := Find(es, name), Unregister(es, name), Shifted(es, k, name);
    if i < |es| {
      assert forall j :: 0 <= j < |es1| ==> es1[j] == es[if j < i then j else j + 1];
      forall j, l | 0 <= j < l < |es1| ensures es1[j].id != es1[l].id {
      }
      assert es1[k1] == es[k];
      forall j | 0 <= j < k1 ensures es1[j].name != es1[k1].name {
      }
    }
  }

  /** Exit takes away the first entry of every name in the tree. */
  lemma {:induction false} ExitRemovesFirst(es: seq<Entry>, k: nat, ms: seq<Module>, at: nat)
    requires First(es, k) && at < |ms| && ms[at].name == es[k].name
    ensures Gone(UnregisterAll(es, ms), es[k].id)
    decreases |ms|
  {
    if ms[0].name == es[k].name {
      UnregisterFirst(es, k);
      GoneStaysGone(Unregister(es, ms[0].name), es[k].id, ms[1..]);
    } else {
      UnregisterOther(es, k, ms[0].name);
      ExitRemovesFirst(Unregister(es, ms[0].name), Shifted(es, k, ms[0].name), ms[1..], at - 1);
    }
  }

  /** Set-up keeps the old entries at the front, up to files in their directories. */
  lemma {:induction false} SetupKeepsOld(luck: nat -> Luck, s: Registry, ms: seq<Module>)
    ensures
      var es := RegisterAll(luck, s, ms).entries;
      && |s.entries| <= |es|
      && forall i :: 0 <= i < |s.entries| ==> es[i].id == s.entries[i].id && es[i].name == s.entries[i].name
    decreases |ms|
  {
    if ms == [] {
    } else {
      SetupKeepsOld(luck, Register(luck, s, ms[0]), ms[1..]);
    }
  }

  /** Set-up followed by exit leaves the registry as it was exactly when no module of the tree has
      the name of one registered before. It does not matter which registrations failed, nor whether
      names are repeated within the tree. */
  lemma {:induction false} SetupExitRestores(luck: nat -> Luck, s: Registry, ms: seq<Module>)
    requires Ordered(s)
    ensures UnregisterAll(RegisterAll(luck, s, ms).entries, ms) == s.entries <==> Fresh(s.entries, ms)
  {
    var k, es := |s.entries|, RegisterAll(luck, s, ms).entries;
    assert s.entries[..k] == s.entries && s.entries[k..] == [];
    if Fresh(s.entries, ms) {
      SetupAppends(luck, s, k, ms);
      ExitClears(es, k, ms);
    } else {
      var at :| 0 <= at < |ms| && Named(s.entries, ms[at].name);
      var i := Find(s.entries, ms[at].name);
      SetupKeepsOld(luck, s, ms);
      SetupKeepsOrder(luck, s, ms);
      ExitRemovesFirst(es, i, ms, at);
      assert s.entries[i].id == es[i].id;
    }
  }

  /** A module of a name registered before takes the older entry with it when it goes. */
  lemma {:induction false} OlderEntryGoes(luck: nat -> Luck, name: string)
    ensures
      var s, m := Registry([Entry(0, name, [])], 1, 0), Module(name, false, []);
      Ordered(s) && UnregisterAll(RegisterAll(luck, s, [m]).entries, [m]) != s.entries
  {
    var s, m := Registry([Entry(0, name, [])], 1, 0), Module(name, false, []);
    assert s.entries[0].name == [m][0].name && Named(s.entries, m.name);
    assert !Fresh(s.entries, [m]);
    SetupExitRestores(luck, s, [m]);
  }

  /** For a tree: set-up by the generic handlers, then exit by them. */
  lemma {:induction false} TreeRoundTrip(luck: nat -> Luck, s: Registry, m: Module)
    requires Ordered(s)
    ensures
      var after := UnregisterAll(RegisterAll(luck, s, PostOrder(m)).entries, PostOrder(m));
      after == s.entries <==> forall x :: x in PostOrder(m) ==> !Named(s.entries, x.name)
  {
    var ms := PostOrder(m);
    SetupExitRestores(luck, s, ms);
    if forall x :: x in ms ==> !Named(s.entries, x.name) {
      assert forall i :: 0 <= i < |ms| ==> ms[i] in ms;
      assert Fresh(s.entries, ms);
    }
  }

  // One step of the walks below.
  lemma {:induction false} SetupChild(luck: nat -> Luck, s: Registry, ms: seq<Module>, i: nat)
    requires i < |ms|
    ensures RegisterAll(luck, s, Forest(ms[..i + 1]))
         == RegisterAll(luck, RegisterAll(luck, s, Forest(ms[..i])), PostOrder(ms[i]))
  {
    assert ms[..i + 1] == ms[..i] + [ms[i]];
    ForestSnoc(ms[..i], ms[i]);
    RegisterConcat(luck, s, Forest(ms[..i]), PostOrder(ms[i]));
  }

  lemma {:induction false} SetupParent(luck: nat -> Luck, s: Registry, m: Module)
    ensures RegisterAll(luck, s, PostOrder(m)) == Register(luck, RegisterAll(luck, s, Forest(m.children)), m)
  {
    RegisterConcat(luck, s, Forest(m.children), [m]);
    var done := RegisterAll(luck, s, Forest(m.children));
    assert RegisterAll(luck, done, [m]) == RegisterAll(luck, Register(luck, done, m), []);
  }

  lemma {:induction false} ExitChild(es: seq<Entry>, ms: seq<Module>, i: nat)
    requires i < |ms|
    ensures UnregisterAll(es, Forest(ms[..i + 1]))
         == UnregisterAll(UnregisterAll(es, Forest(ms[..i])), PostOrder(ms[i]))
  {
    assert ms[..i + 1] == ms[..i] + [ms[i]];
    ForestSnoc(ms[..i], ms[i]);
    UnregisterConcat(es, Forest(ms[..i]), PostOrder(ms[i]));
  }

  lemma {:induction false} ExitParent(es: seq<Entry>, m: Module)
    ensures UnregisterAll(es, PostOrder(m)) == Unregister(UnregisterAll(es, Forest(m.children)), m.name)
  {
    UnregisterConcat(es, Forest(m.children), [m]);
    var done := UnregisterAll(es, Forest(m.children));
    assert UnregisterAll(done, [m]) == UnregisterAll(Unregister(done, m.name), []);
  }

  // ---- the driver ---------------------------------------------------------------------------

  class Config {
    const luck: nat -> Luck
    var entries: seq<Entry>       // module_list, oldest first
    var nextId: nat
    var attempts: nat             // registrations begun; stands for the kernel's time

    ghost function State(): Registry
      reads this
    {
      Registry(entries, nextId, attempts)
    }

    ghost predicate Valid()
      reads this
    {
      Ordered(State())
    }

    constructor (luck: nat -> Luck)
      ensures Valid() && State() == Registry([], 0, 0) && this.luck == luck
    {
      this.luck := luck;
      entries, nextId, attempts := [], 0, 0;
    }

    /** get_entry_by_name */
    method FindByName(name: string) returns (i: nat)
      ensures i == Find(entries, name)
    {
      i := 0;
      while i < |entries| && entries[i].name != name
        invariant 0 <= i <= |entries|
        invariant forall k :: 0 <= k < i ==> entries[k].name != name
      {
        i := i + 1;
      }
    }

    /** add_procentry. `file` is what the kernel makes of the new file. */
    method AddProcEntry(name: string, proc: string, file: File) returns (result: int)
      modifies `entries
      ensures entries == AddProc(old(entries), name, proc, file)
      ensures result == if !Named(old(entries), name) then -19
                        else if proc in old(entries)[Find(old(entries), name)].procs then -17
                        else match file case Made => 0 case NoRoom => -12 case Refused => -1
    {
      var i := FindByName(name);
      if i == |entries| {
        return ENODEV;
      }
      var taken := HasProc(entries[i].procs, proc);
      if taken {
        return EEXIST;
      }
      if file.NoRoom? {
        return ENOMEM;
      }
      if file.Refused? {
        return -1;
      }
      entries := entries[i := entries[i].(procs := entries[i].procs + [proc])];
      result := 0;
    }

    /** get_procentry, within one entry. */
    static method HasProc(procs: seq<string>, name: string) returns (taken: bool)
      ensures taken <==> name in procs
    {
      for k := 0 to |procs|
        invariant forall j :: 0 <= j < k ==> procs[j] != name
      {
        if procs[k] == name {
          return true;
        }
      }
      taken := false;
    }

    /** avmnet_cfg_register_module */
    method RegisterModule(m: Module) returns (result: int)
      requires Valid()
      modifies this
      ensures Valid()
      ensures State() == Register(luck, old(State()), m)
      ensures result == match luck(old(attempts))
                        case Fine(_) => old(nextId)
                        case NoMemory => -12
                        case NoDirectory => -19
                        case Interrupted(_) => -4
    {
      RegisterKeepsOrder(luck, State(), m);
      var outcome, file := luck(attempts), Refused;
      attempts := attempts + 1;
      match outcome {
        case NoMemory => return ENOMEM;
        case NoDirectory => return ENODEV;
        case Interrupted(f) =>
          result, file := EINTR, f;
        case Fine(f) =>
          entries := entries + [Entry(nextId, m.name, [])];
          result, file := nextId, f;
          nextId := nextId + 1;
      }
      if m.hasRegs {
        var ignored := AddProcEntry(m.name, MDIO, file);
      }
    }

    /** avmnet_cfg_unregister_module */
    method UnregisterModule(name: string) returns (result: int)
      requires Valid()
      modifies `entries
      ensures Valid()
      ensures entries == Unregister(old(entries), name)
      ensures result == if Named(old(entries), name) then 0 else -19
    {
      var i := FindByName(name);
      if i == |entries| {
        return ENODEV;
      }
      entries := entries[..i] + entries[i + 1..];
      result := 0;
    }

    /** avmnet_generic_setup: it reports success whatever becomes of the registrations. */
    method Setup(m: Module) returns (ret: bv32)
      requires Valid()
      modifies this
      ensures Valid()
      ensures State() == RegisterAll(luck, old(State()), PostOrder(m))
      ensures ret == 0
      decreases m
    {
      ghost var start := State();
      ret := 0;
      assert m.children[..0] == [];
      for i := 0 to |m.children|
        invariant Valid()
        invariant State() == RegisterAll(luck, start, Forest(m.children[..i]))
        invariant ret == 0
      {
        var r := Setup(m.children[i]);
        ret := ret | r;
        SetupChild(luck, start, m.children, i);
      }
      assert m.children[..|m.children|] == m.children;
      SetupParent(luck, start, m);
      SetupKeepsOrder(luck, start, PostOrder(m));
      var ignored := RegisterModule(m);
    }

    /** avmnet_generic_exit */
    method Exit(m: Module) returns (ret: bv32)
      requires Valid()
      modifies `entries
      ensures Valid()
      ensures entries == UnregisterAll(old(entries), PostOrder(m))
      ensures ret == 0
      decreases m
    {
      ghost var start := entries;
      ret := 0;
      assert m.children[..0] == [];
      for i := 0 to |m.children|
        invariant Valid()
        invariant entries == UnregisterAll(start, Forest(m.children[..i]))
        invariant ret == 0
      {
        var r := Exit(m.children[i]);
        ret := ret | r;
        ExitChild(start, m.children, i);
      }
      assert m.children[..|m.children|] == m.children;
      ExitParent(start, m);
      ExitKeepsOrder(Registry(start, nextId, attempts), PostOrder(m));
      var ignored := UnregisterModule(m.name);
    }
  }
}

/** The session registry: a mutex-guarded map and a table with a primary key, changed by
    concurrent Create, Remove and restartPairing calls that release the mutex between the two. */
module SessionRegistry {
  import opened Options

  type Name = string
  type SessionId = nat
  type ThreadId = nat

  /** Where one API call or logged-out handler stands. */
  datatype Thread =
    | Creating(name: Name)
    | Inserted(name: Name)
    | Removing(name: Name, session: SessionId)
    | Restarting(prior: SessionId, name: Name)
    | Resetting(name: Name)

  /** A row of gw_sessions. */
  datatype Row = Row(jid: string, owner: string)

  /** Who answers for an existing row: the registered session, start which has read but not yet
      registered it, nobody because its delete failed, or a call between its table and map change. */
  datatype Holder = Registered | Booting | Abandoned | Call(thread: ThreadId)

  /** `booting` names rows that start has read but not registered. The last two fields only keep
      account: who holds each row, and how often each session object was replaced. */
  datatype Registry = Registry(
    rows: map<Name, Row>,
    sessions: map<Name, SessionId>,
    threads: map<ThreadId, Thread>,
    booting: set<Name>,
    next: SessionId,
    names: map<SessionId, Name>,
    holders: map<Name, Holder>,
    replaced: map<SessionId, nat>)

  datatype Action =
    | CreateBegin(t: ThreadId, name: Name)
    | CreateInsert(t: ThreadId, owner: string)
    | CreateRegister(t: ThreadId)
    | RemoveBegin(t: ThreadId, name: Name)
    | RemoveDelete(t: ThreadId, ok: bool)
    | LoggedOut(t: ThreadId, session: SessionId)
    | RestartSwap(t: ThreadId)
    | RestartReset(t: ThreadId, ok: bool)
    | BootRegister(name: Name)
    | Restart

  function Init(): Registry {
    Registry(map[], map[], map[], {}, 0, map[], map[], map[])
  }

  /** Puts a brand-new session object into the map. */
  function RegisterFresh(s: Registry, name: Name): Registry {
    s.(sessions := s.sessions[name := s.next], next := s.next + 1, holders := s.holders[name := Registered],
       names := s.names[s.next := name], replaced := s.replaced[s.next := 0])
  }

  function Step(s: Registry, a: Action): Option<Registry> {
    match a
    case CreateBegin(t, name) =>
      // the existence check, under the lock
      if t in s.threads || s.booting != {} || name == "" then None
      else if name in s.sessions then Some(s)
      else Some(s.(threads := s.threads[t := Creating(name)]))
    case CreateInsert(t, owner) =>
      if t !in s.threads || !s.threads[t].Creating? then None else
        var name := s.threads[t].name;
        // a duplicate name violates the primary key and ends the call
        if name in s.rows then Some(s.(threads := s.threads - {t}))
        else Some(s.(rows := s.rows[name := Row("", owner)], threads := s.threads[t := Inserted(name)],
                     holders := s.holders[name := Call(t)]))
    case CreateRegister(t) =>
      if t !in s.threads || !s.threads[t].Inserted? then None else
        Some(RegisterFresh(s, s.threads[t].name).(threads := s.threads - {t}))
    case RemoveBegin(t, name) =>
      if t in s.threads || s.booting != {} then None
      else if name !in s.sessions then Some(s)
      else Some(s.(threads := s.threads[t := Removing(name, s.sessions[name])], sessions := s.sessions - {name},
                   holders := s.holders[name := Call(t)]))
    case RemoveDelete(t, ok) =>
      if t !in s.threads || !s.threads[t].Removing? then None else
        var name := s.threads[t].name;
        if ok then Some(s.(rows := s.rows - {name}, threads := s.threads - {t}, holders := s.holders - {name}))
        else Some(s.(threads := s.threads - {t}, holders := s.holders[name := Abandoned]))
    case LoggedOut(t, session) =>
      if t in s.threads || session !in s.names then None else
        Some(s.(threads := s.threads[t := Restarting(session, s.names[session])]))
    case RestartSwap(t) =>
      if t !in s.threads || !s.threads[t].Restarting? then None else
        var prior, name := s.threads[t].prior, s.threads[t].name;
        if name !in s.sessions || s.sessions[name] != prior then Some(s.(threads := s.threads - {t}))
        else
          var u := RegisterFresh(s, name);
          Some(u.(threads := s.threads[t := Resetting(name)],
                  replaced := if prior in u.replaced then u.replaced[prior := u.replaced[prior] + 1] else u.replaced))
    case RestartReset(t, ok) =>
      // a failed UPDATE is logged
      if t !in s.threads || !s.threads[t].Resetting? then None else
        var name := s.threads[t].name;
        Some(s.(rows := if ok && name in s.rows then s.rows[name := s.rows[name].(jid := "")] else s.rows,
                threads := s.threads - {t}))
    case BootRegister(name) =>
      if name !in s.booting then None else
        Some(RegisterFresh(s, name).(booting := s.booting - {name}))
    case Restart =>
      // the process ends and starts again: only the table survives, and start reads it
      Some(s.(sessions := map[], threads := map[], booting := s.rows.Keys,
                holders := map name | name in s.rows :: Booting))
  }

  function Exec(s: Registry, acts: seq<Action>): Option<Registry> {
    if acts == [] then Some(s) else
      var before := Exec(s, acts[..|acts| - 1]);
      if before.None? then None else Step(before.value, acts[|acts| - 1])
  }

  /** A call between its table change and its map change, in either order. */
  predicate Mid(t: Thread, name: Name) {
    (t.Inserted? || t.Removing?) && t.name == name
  }

  ghost predicate Objects(s: Registry) {
    && s.names.Keys == s.replaced.Keys
    && (forall i :: i in s.names ==> i < s.next)
    && (forall n :: n in s.sessions ==>
         s.sessions[n] in s.names && s.names[s.sessions[n]] == n && s.replaced[s.sessions[n]] == 0)
    && (forall i :: i in s.replaced ==> s.replaced[i] <= 1)
    && (forall t :: t in s.threads && s.threads[t].Restarting? ==>
         s.threads[t].prior in s.names && s.names[s.threads[t].prior] == s.threads[t].name)
  }

  ghost predicate HeldBy(s: Registry, name: Name, h: Holder) {
    name in s.holders && s.holders[name] == h
  }

  /** Rows, map, start list and calls agree with the account of holders. */
  ghost predicate Accounted(s: Registry) {
    && s.holders.Keys == s.rows.Keys
    && (forall name :: name in s.sessions <==> HeldBy(s, name, Registered))
    && (forall name :: name in s.booting <==> HeldBy(s, name, Booting))
    && (forall t :: t in s.threads && (s.threads[t].Inserted? || s.threads[t].Removing?) ==>
         HeldBy(s, s.threads[t].name, Call(t)))
    && (forall name :: name in s.holders && s.holders[name].Call? ==>
         s.holders[name].thread in s.threads && Mid(s.threads[s.holders[name].thread], name))
  }

  /** A fresh object may take a name's place in the map. */
  lemma FreshObject(s: Registry, name: Name)
    requires Objects(s)
    ensures Objects(RegisterFresh(s, name))
  {
  }

  /** Objects do not depend on rows, calls other than restarts, the start list or the account. */
  lemma ObjectsOnly(s: Registry, t: Registry)
    requires Objects(s) && t.names == s.names && t.replaced == s.replaced && t.next == s.next
    requires forall n :: n in t.sessions ==> n in s.sessions && t.sessions[n] == s.sessions[n]
    requires forall u :: u in t.threads && t.threads[u].Restarting? ==>
      t.threads[u].prior in s.names && s.names[t.threads[u].prior] == t.threads[u].name
    ensures Objects(t)
  {
  }

  /** Replacing the registered object of a name by a fresh one counts once for it. */
  lemma SwapObjects(s: Registry, a: Action)
    requires Objects(s) && Step(s, a).Some? && a.RestartSwap?
    ensures Objects(Step(s, a).value)
  {
    var name := s.threads[a.t].name;
    FreshObject(s, name);
  }

  /** Registering a fresh object at the end of Create or of start. */
  lemma RegisterObjects(s: Registry, a: Action)
    requires Objects(s) && Step(s, a).Some? && (a.CreateRegister? || a.BootRegister?)
    ensures Objects(Step(s, a).value)
  {
    var name := if a.BootRegister? then a.name else s.threads[a.t].name;
    FreshObject(s, name);
    ObjectsOnly(RegisterFresh(s, name), Step(s, a).value);
  }

  lemma ObjectsKept(s: Registry, a: Action)
    requires Objects(s) && Step(s, a).Some?
    ensures Objects(Step(s, a).value)
  {
    if a.RestartSwap? {
      SwapObjects(s, a);
    } else if a.CreateRegister? || a.BootRegister? {
      RegisterObjects(s, a);
    } else {
      ObjectsOnly(s, Step(s, a).value);
    }
  }

  lemma InsertAccount(s: Registry, a: Action)
    requires Accounted(s) && Step(s, a).Some? && a.CreateInsert?
    ensures Accounted(Step(s, a).value)
  {
  }

  lemma CreateAccount(s: Registry, a: Action)
    requires Accounted(s) && Step(s, a).Some? && (a.CreateBegin? || a.CreateRegister?)
    ensures Accounted(Step(s, a).value)
  {
  }

  lemma RemoveBeginAccount(s: Registry, a: Action)
    requires Accounted(s) && Step(s, a).Some? && a.RemoveBegin?
    ensures Accounted(Step(s, a).value)
  {
  }

  lemma DeleteAccount(s: Registry, a: Action)
    requires Accounted(s) && Step(s, a).Some? && a.RemoveDelete?
    ensures Accounted(Step(s, a).value)
  {
  }

  lemma SwapAccount(s: Registry, a: Action)
    requires Accounted(s) && Step(s, a).Some? && a.RestartSwap?
    ensures Accounted(Step(s, a).value)
  {
  }

  lemma RestartAccount(s: Registry, a: Action)
    requires Accounted(s) && Step(s, a).Some? && (a.LoggedOut? || a.RestartReset?)
    ensures Accounted(Step(s, a).value)
  {
  }

  lemma StartAccount(s: Registry, a: Action)
    requires Accounted(s) && Step(s, a).Some? && (a.BootRegister? || a.Restart?)
    ensures Accounted(Step(s, a).value)
  {
  }

  lemma AccountKept(s: Registry, a: Action)
    requires Accounted(s) && Step(s, a).Some?
    ensures Accounted(Step(s, a).value)
  {
    match a
    case CreateBegin(_, _) => CreateAccount(s, a);
    case CreateInsert(_, _) => InsertAccount(s, a);
    case CreateRegister(_) => CreateAccount(s, a);
    case RemoveBegin(_, _) => RemoveBeginAccount(s, a);
    case RemoveDelete(_, _) => DeleteAccount(s, a);
    case LoggedOut(_, _) => RestartAccount(s, a);
    case RestartSwap(_) => SwapAccount(s, a);
    case RestartReset(_, _) => RestartAccount(s, a);
    case BootRegister(_) => StartAccount(s, a);
    case Restart => StartAccount(s, a);
  }

  lemma {:induction false} RunKeeps(acts: seq<Action>)
    requires Exec(Init(), acts).Some?
    ensures Objects(Exec(Init(), acts).value) && Accounted(Exec(Init(), acts).value)
  {
    if acts != [] {
      var n := |acts| - 1;
      RunKeeps(acts[..n]);
      ObjectsKept(Exec(Init(), acts[..n]).value, acts[n]);
      AccountKept(Exec(Init(), acts[..n]).value, acts[n]);
    }
  }

  /** In every interleaving a registered session has its table row. */
  lemma RegisteredHasRow(acts: seq<Action>, s: Registry, name: Name)
    requires Exec(Init(), acts) == Some(s) && name in s.sessions
    ensures name in s.rows
  {
    RunKeeps(acts);
    assert HeldBy(s, name, Registered);
  }

  /** At most one call is in the middle of Create or Remove for a name, and then the name has its
      row but no registered session. */
  lemma OneCallInTheMiddle(acts: seq<Action>, s: Registry, t: ThreadId, u: ThreadId, name: Name)
    requires Exec(Init(), acts) == Some(s)
    requires t in s.threads && u in s.threads && Mid(s.threads[t], name) && Mid(s.threads[u], name)
    ensures t == u && name in s.rows && name !in s.sessions
  {
    RunKeeps(acts);
    assert HeldBy(s, name, Call(t)) && HeldBy(s, name, Call(u));
  }

  ghost predicate Deletes(s: Registry, a: Action, name: Name) {
    a.RemoveDelete? && a.ok && a.t in s.threads && s.threads[a.t].Removing? && s.threads[a.t].name == name
  }

  /** The action is an insert for this name that the primary key accepts. */
  ghost predicate Inserts(s: Registry, a: Action, name: Name) {
    a.CreateInsert? && a.t in s.threads && s.threads[a.t].Creating? && s.threads[a.t].name == name && name !in s.rows
  }

  ghost predicate NoDelete(s: Registry, acts: seq<Action>, name: Name) {
    acts == [] ||
    (var n := |acts| - 1;
     NoDelete(s, acts[..n], name) && (Exec(s, acts[..n]).Some? ==> !Deletes(Exec(s, acts[..n]).value, acts[n], name)))
  }

  lemma RowSurvives(s: Registry, a: Action, name: Name)
    requires name in s.rows && Step(s, a).Some? && !Deletes(s, a, name)
    ensures name in Step(s, a).value.rows && Step(s, a).value.rows[name].owner == s.rows[name].owner
  {
  }

  lemma {:induction false} RowStays(s: Registry, acts: seq<Action>, name: Name)
    requires name in s.rows && Exec(s, acts).Some? && NoDelete(s, acts, name)
    ensures name in Exec(s, acts).value.rows
  {
    if acts != [] {
      var n := |acts| - 1;
      RowStays(s, acts[..n], name);
      RowSurvives(Exec(s, acts[..n]).value, acts[n], name);
    }
  }

  /** An accepted insert makes a row without a device, owned by whoever asked for it. */
  lemma InsertOwns(s: Registry, a: Action, name: Name)
    requires Inserts(s, a, name)
    ensures Step(s, a).Some? && Step(s, a).value.rows == s.rows[name := Row("", a.owner)]
  {
  }

  /** A row keeps its owner as long as it is not deleted, through every other call and restart. */
  lemma {:induction false} OwnerStays(s: Registry, acts: seq<Action>, name: Name)
    requires name in s.rows && Exec(s, acts).Some? && NoDelete(s, acts, name)
    ensures name in Exec(s, acts).value.rows && Exec(s, acts).value.rows[name].owner == s.rows[name].owner
  {
    if acts != [] {
      var n := |acts| - 1;
      OwnerStays(s, acts[..n], name);
      RowSurvives(Exec(s, acts[..n]).value, acts[n], name);
    }
  }

  /** Two Creates cannot both pass the insert for a name unless a Remove deleted the row in between,
      however many calls, logouts and restarts interleave. */
  lemma InsertsNeedDelete(s: Registry, first: Action, between: seq<Action>, second: Action, name: Name)
    requires Inserts(s, first, name) && Exec(s, [first] + between).Some?
    requires Inserts(Exec(s, [first] + between).value, second, name)
    ensures !NoDelete(Step(s, first).value, between, name)
  {
    var t := Step(s, first).value;
    ExecCons(s, first, between);
    if NoDelete(t, between, name) {
      RowStays(t, between, name);
      assert false;
    }
  }

  lemma {:induction false} ExecCons(s: Registry, a: Action, acts: seq<Action>)
    requires Exec(s, [a] + acts).Some?
    ensures Step(s, a).Some? && Exec(s, [a] + acts) == Exec(Step(s, a).value, acts)
  {
    if acts == [] {
      assert [a] + acts == [a] && [a][..0] == [];
    } else {
      var n := |acts| - 1;
      assert ([a] + acts)[..n + 1] == [a] + acts[..n] && ([a] + acts)[n + 1] == acts[n];
      ExecCons(s, a, acts[..n]);
    }
  }

  /** However often a session object reports being logged out, it is replaced at most once, and a
      replaced object is never in the map again. */
  lemma ReplacedAtMostOnce(acts: seq<Action>, s: Registry, i: SessionId)
    requires Exec(Init(), acts) == Some(s) && i in s.replaced
    ensures s.replaced[i] <= 1
    ensures s.replaced[i] == 1 ==> forall name :: name in s.sessions ==> s.sessions[name] != i
  {
    RunKeeps(acts);
  }
}

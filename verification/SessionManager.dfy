/** The registry's methods as the program has them, each run without interference: what a call
    does to the map and the table is what its steps do in the interleaved registry. */
module SessionManager {
  import opened Options
  import opened SessionRegistry

  datatype CreateError = NameRequired | SessionExists | PersistFailed

  class Manager {
    var rows: map<Name, Row>
    var sessions: map<Name, SessionId>
    var next: SessionId
    var names: map<SessionId, Name>

    constructor ()
      ensures Reflects(Init())
    {
      rows, sessions, next, names := map[], map[], 0, map[];
    }

    /** The fields are those of the interleaved registry, which has finished starting. */
    ghost predicate Reflects(s: Registry)
      reads this
    {
      rows == s.rows && sessions == s.sessions && next == s.next && names == s.names && s.booting == {}
    }

    /** Registers a name: refused when empty, when already in the map, or when the insert meets an existing row. */
    method Create(name: Name, owner: string, ghost s: Registry, ghost t: ThreadId)
      returns (error: Option<CreateError>, session: SessionId)
      requires Reflects(s) && t !in s.threads
      modifies this
      ensures error.None? <==> name != "" && name !in old(sessions) && name !in old(rows)
      ensures error.None? ==>
        && Exec(s, [CreateBegin(t, name), CreateInsert(t, owner), CreateRegister(t)]).Some?
        && Reflects(Exec(s, [CreateBegin(t, name), CreateInsert(t, owner), CreateRegister(t)]).value)
        && sessions == old(sessions)[name := session] && session == old(next)
        && rows == old(rows)[name := Row("", owner)]
      ensures error.Some? ==> Reflects(s) && rows == old(rows) && sessions == old(sessions)
      ensures error == Some(NameRequired) <==> name == ""
      ensures error == Some(SessionExists) <==> name != "" && name in old(sessions)
    {
      session := 0;
      if name == "" {
        return Some(NameRequired), session;
      }
      if name in sessions {
        return Some(SessionExists), session;
      }
      if name in rows {
        return Some(PersistFailed), session;
      }
      rows := rows[name := Row("", owner)];
      session := next;
      sessions, names, next := sessions[name := session], names[session := name], next + 1;
      ThreeSteps(s, CreateBegin(t, name), CreateInsert(t, owner), CreateRegister(t));
      error := None;
    }

    /** Takes a name out of the map, then out of the table. */
    method Remove(name: Name, ok: bool, ghost s: Registry, ghost t: ThreadId) returns (found: bool)
      requires Reflects(s) && t !in s.threads
      modifies this
      ensures found <==> name in old(sessions)
      ensures !found ==> Reflects(s)
      ensures found ==>
        && Exec(s, [RemoveBegin(t, name), RemoveDelete(t, ok)]).Some?
        && Reflects(Exec(s, [RemoveBegin(t, name), RemoveDelete(t, ok)]).value)
        && sessions == old(sessions) - {name} && rows == (if ok then old(rows) - {name} else old(rows))
    {
      if name !in sessions {
        return false;
      }
      sessions := sessions - {name};
      if ok {
        rows := rows - {name};
      }
      TwoSteps(s, RemoveBegin(t, name), RemoveDelete(t, ok));
      found := true;
    }

    /** Replaces a logged-out session object by a fresh one, unless it is no longer the registered one. */
    method RestartPairing(prior: SessionId, ok: bool, ghost s: Registry, ghost t: ThreadId) returns (replaced: bool)
      requires Reflects(s) && t !in s.threads && prior in names
      modifies this
      ensures replaced <==> old(names)[prior] in old(sessions) && old(sessions)[old(names)[prior]] == prior
      ensures !replaced ==> Reflects(s)
      ensures replaced ==>
        && Exec(s, [LoggedOut(t, prior), RestartSwap(t), RestartReset(t, ok)]).Some?
        && Reflects(Exec(s, [LoggedOut(t, prior), RestartSwap(t), RestartReset(t, ok)]).value)
        && sessions == old(sessions)[old(names)[prior] := old(next)]
        && rows == if ok && old(names)[prior] in old(rows)
                   then old(rows)[old(names)[prior] := Row("", old(rows)[old(names)[prior]].owner)] else old(rows)
    {
      var name := names[prior];
      if name !in sessions || sessions[name] != prior {
        return false;
      }
      sessions, names, next := sessions[name := next], names[next := name], next + 1;
      if ok && name in rows {
        rows := rows[name := rows[name].(jid := "")];
      }
      RestartSteps(s, t, prior, ok);
      replaced := true;
    }
  }

  /** The three steps of a restart that finds its object registered. */
  lemma RestartSteps(s: Registry, t: ThreadId, prior: SessionId, ok: bool)
    requires t !in s.threads && prior in s.names
    requires s.names[prior] in s.sessions && s.sessions[s.names[prior]] == prior
    ensures var steps := [LoggedOut(t, prior), RestartSwap(t), RestartReset(t, ok)]; var name := s.names[prior];
      && Exec(s, steps).Some?
      && var u := Exec(s, steps).value;
         && u.sessions == s.sessions[name := s.next] && u.names == s.names[s.next := name] && u.next == s.next + 1
         && u.rows == (if ok && name in s.rows then s.rows[name := s.rows[name].(jid := "")] else s.rows)
         && u.booting == s.booting
  {
    ThreeSteps(s, LoggedOut(t, prior), RestartSwap(t), RestartReset(t, ok));
  }

  lemma TwoSteps(s: Registry, a: Action, b: Action)
    requires Step(s, a).Some?
    ensures Exec(s, [a, b]) == Step(Step(s, a).value, b)
  {
    assert [a, b][..1] == [a] && [a][..0] == [];
    assert Exec(s, [a]) == Step(s, a);
  }

  lemma ThreeSteps(s: Registry, a: Action, b: Action, c: Action)
    requires Step(s, a).Some? && Step(Step(s, a).value, b).Some?
    ensures Exec(s, [a, b, c]) == Step(Step(Step(s, a).value, b).value, c)
  {
    TwoSteps(s, a, b);
    assert [a, b, c][..2] == [a, b];
  }
}

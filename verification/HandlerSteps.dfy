/**
 Each handler, taken as atomic, is a sequence of the steps whose interleavings bound how old an answer
 can be: what is proved of all interleavings holds of the handlers run one after the other.
 */
module HandlerSteps {
  import opened Wrappers
  import opened Backups
  import opened Listing
  import opened Cache
  import opened Handlers
  import S = Staleness

  /** The service between two requests: nobody is reading. */
  function AsSteps(s: ServiceState, now: Time): S.State {
    S.State(now, s.rows, s.ttl, s.cache.backups, s.cache.lists, map[])
  }

  /** The steps one after the other, as long as each is enabled. */
  function After(s: S.State, acts: seq<S.Action>): Option<S.State>
    decreases |acts|
  {
    if acts == [] then Some(s)
    else if S.Enabled(s, acts[0]) then After(S.Apply(s, acts[0]), acts[1..])
    else None
  }

  /** If they all are, they make up a run. */
  lemma {:induction false} AfterIsRun(s: S.State, acts: seq<S.Action>) returns (states: seq<S.State>)
    requires After(s, acts).Some?
    ensures S.IsRun(states, acts) && states[0] == s && states[|acts|] == After(s, acts).value
    decreases |acts|
  {
    if acts == [] {
      states := [s];
    } else {
      var rest := AfterIsRun(S.Apply(s, acts[0]), acts[1..]);
      states := [s] + rest;
      forall i | 0 <= i < |acts|
        ensures S.Step(states[i], acts[i], states[i + 1])
      {
        if i > 0 { assert S.Step(rest[i - 1], acts[1..][i - 1], rest[i - 1 + 1]); }
      }
    }
  }

  /** The invalidations of a write, as far as they get through. */
  function Drops(s: ServiceState, call: Call): seq<S.Action> {
    (if call.request.Create? || call.request.Get? || call.request.List? then []
     else if call.env.delBackupWorks && s.cache.connected then [S.DropBackup(call.request.id)] else [])
    + if call.env.delListWorks && s.cache.connected then [S.DropList(call.tenant)] else []
  }

  /** What the handler of the request goes through. */
  function StepsOf(s: ServiceState, call: Call): seq<S.Action> {
    var t, env := call.tenant, call.env;
    var reaches := s.cache.connected && env.getWorks;
    match call.request
    case Get(id) =>
      if reaches && Live(s.cache.backups, id, env.now) && s.cache.backups[id].value.tenant == t
      then [S.HitBackup(id, t)]
      else if Fetch(s.rows, id, t).Some?
      then [S.SelectRow(0, id, t), S.Fill(0, env.setWorks && s.cache.connected)]
      else []
    case List(status, limit, offset) =>
      if !UsesListCache(s, status, limit, offset) then []
      else if reaches && Live(s.cache.lists, t, env.now) then [S.HitList(t)]
      else
        [S.SelectItems(0, t, ClampLimit(limit), ClampOffset(offset)), S.SelectTotal(0),
         S.Fill(0, env.setWorks && s.cache.connected)]
    case _ =>
      var (rows, r) := Direct(s.rows, call);
      if r.Created? || r.Updated? || r.NoContent? then [S.Write(rows)] + Drops(s, call) else []
  }

  lemma AfterOne(s: S.State, a: S.Action)
    requires S.Enabled(s, a)
    ensures After(s, [a]) == Some(S.Apply(s, a))
  {
    assert [a][1..] == [];
  }

  lemma AfterFirst(s: S.State, a: S.Action, acts: seq<S.Action>)
    requires S.Enabled(s, a)
    ensures After(s, [a] + acts) == After(S.Apply(s, a), acts)
  {
    assert ([a] + acts)[1..] == acts;
  }

  lemma GetInSteps(s: ServiceState, call: Call)
    requires call.request.Get?
    ensures After(AsSteps(s, call.env.now), StepsOf(s, call)) == Some(AsSteps(Serve(s, call).0, call.env.now))
  {
    var s0, id, t := AsSteps(s, call.env.now), call.request.id, call.tenant;
    var works := call.env.setWorks && s.cache.connected;
    if StepsOf(s, call) == [S.HitBackup(id, t)] {
      AfterOne(s0, S.HitBackup(id, t));
    } else if Fetch(s.rows, id, t).Some? {
      var s1 := S.Apply(s0, S.SelectRow(0, id, t));
      AfterFirst(s0, S.SelectRow(0, id, t), [S.Fill(0, works)]);
      AfterOne(s1, S.Fill(0, works));
      assert s1.reading - {0} == map[];
    }
  }

  lemma ListInSteps(s: ServiceState, call: Call)
    requires call.request.List?
    ensures After(AsSteps(s, call.env.now), StepsOf(s, call)) == Some(AsSteps(Serve(s, call).0, call.env.now))
  {
    var List(status, limit, offset) := call.request;
    var s0, t := AsSteps(s, call.env.now), call.tenant;
    var works := call.env.setWorks && s.cache.connected;
    if StepsOf(s, call) == [S.HitList(t)] {
      AfterOne(s0, S.HitList(t));
    } else if UsesListCache(s, status, limit, offset) {
      var select := S.SelectItems(0, t, ClampLimit(limit), ClampOffset(offset));
      var s1 := S.Apply(s0, select);
      var s2 := S.Apply(s1, S.SelectTotal(0));
      AfterFirst(s0, select, [S.SelectTotal(0), S.Fill(0, works)]);
      AfterFirst(s1, S.SelectTotal(0), [S.Fill(0, works)]);
      AfterOne(s2, S.Fill(0, works));
      assert [select] + [S.SelectTotal(0), S.Fill(0, works)] == StepsOf(s, call);
      assert [S.SelectTotal(0)] + [S.Fill(0, works)] == [S.SelectTotal(0), S.Fill(0, works)];
      assert s2.reading - {0} == map[];
    }
  }

  lemma DropsInSteps(s: ServiceState, call: Call, s0: S.State)
    requires !call.request.Get? && !call.request.List?
    ensures var s1 := if call.request.Create? then s0 else s0.(
        backups := Drop(s0.backups, call.request.id, call.env.delBackupWorks && s.cache.connected));
      After(s0, Drops(s, call))
        == Some(s1.(lists := Drop(s1.lists, call.tenant, call.env.delListWorks && s.cache.connected)))
  {
    var lists := if call.env.delListWorks && s.cache.connected then [S.DropList(call.tenant)] else [];
    if lists != [] {
      AfterOne(s0, S.DropList(call.tenant));
    }
    if !call.request.Create? && call.env.delBackupWorks && s.cache.connected {
      var drop := S.DropBackup(call.request.id);
      AfterFirst(s0, drop, lists);
      if lists != [] {
        AfterOne(S.Apply(s0, drop), S.DropList(call.tenant));
      }
    }
  }

  lemma WriteInSteps(s: ServiceState, call: Call)
    requires !call.request.Get? && !call.request.List?
    ensures After(AsSteps(s, call.env.now), StepsOf(s, call)) == Some(AsSteps(Serve(s, call).0, call.env.now))
  {
    var s0 := AsSteps(s, call.env.now);
    var (rows, r) := Direct(s.rows, call);
    if r.Created? || r.Updated? || r.NoContent? {
      AfterFirst(s0, S.Write(rows), Drops(s, call));
      DropsInSteps(s, call, S.Apply(s0, S.Write(rows)));
    }
  }

  /** A request's handler, run without interruption, is a run of those steps that ends where it ends. */
  lemma ServeIsARun(s: ServiceState, call: Call) returns (states: seq<S.State>)
    ensures S.IsRun(states, StepsOf(s, call)) && states[0] == AsSteps(s, call.env.now)
    ensures states[|StepsOf(s, call)|] == AsSteps(Serve(s, call).0, call.env.now)
  {
    match call.request {
      case Get(_) => GetInSteps(s, call);
      case List(_, _, _) => ListInSteps(s, call);
      case _ => WriteInSteps(s, call);
    }
    states := AfterIsRun(AsSteps(s, call.env.now), StepsOf(s, call));
  }

  /** Time that passes and a new lifetime for entries are steps too. */
  lemma MeanwhileInSteps(s: ServiceState, now: Time, elapsed: nat, ttl: nat)
    ensures After(AsSteps(s, now), [S.Tick(elapsed), S.SetTtl(ttl)])
         == Some(AsSteps(s.(ttl := ttl), now + elapsed))
  {
    AfterFirst(AsSteps(s, now), S.Tick(elapsed), [S.SetTtl(ttl)]);
    AfterOne(AsSteps(s, now + elapsed), S.SetTtl(ttl));
    assert [S.Tick(elapsed)] + [S.SetTtl(ttl)] == [S.Tick(elapsed), S.SetTtl(ttl)];
  }

  /** A handler that breaks off after its SELECT leaves nothing behind. */
  lemma BrokenOffInSteps(s: ServiceState, now: Time, id: Uuid, tenant: Uuid)
    requires Fetch(s.rows, id, tenant).Some?
    ensures After(AsSteps(s, now), [S.SelectRow(0, id, tenant), S.Abort(0)]) == Some(AsSteps(s, now))
  {
    var s0, select := AsSteps(s, now), S.SelectRow(0, id, tenant);
    AfterFirst(s0, select, [S.Abort(0)]);
    AfterOne(S.Apply(s0, select), S.Abort(0));
    assert [select] + [S.Abort(0)] == [select, S.Abort(0)];
    assert S.Apply(s0, select).reading - {0} == map[];
  }
}

/** Where a query is wanted, and what to do about it given which chains are ready. */
module Routing {
  import opened Options

  datatype Chain = Local | Remote

  function Other(c: Chain): Chain { if c == Local then Remote else Local }

  datatype Hint = HintLocal | HintAuto | HintRemote

  datatype Step = Proceed | ConfirmRemote | WaitLocal | Unavailable

  datatype Decision = Decision(chain: Chain, step: Step)

  /** The desired chain, and whether the query is pinned to the device. */
  function ResolveDesired(explicit: Option<Chain>, hints: set<Hint>, default: Chain): (r: (Chain, bool))
    ensures r.1 ==> r.0 == Local
    ensures r.1 <==> explicit == Some(Local) || (explicit.None? && HintLocal in hints)
    ensures (r.0 == Remote <==>
             || explicit == Some(Remote)
             || (explicit.None? && HintLocal !in hints && (HintRemote in hints || default == Remote)))
  {
    if explicit.Some? then (explicit.value, explicit.value == Local)
    else if HintLocal in hints then (Local, true)
    else if HintRemote in hints then (Remote, false)
    else (default, false)
  }

  /** Where a query is wanted if hints that collide are settled as they are said to be: local before auto
      before remote, auto leaving it to the default. */
  function Promised(explicit: Option<Chain>, hints: set<Hint>, default: Chain): Chain {
    if explicit.Some? then explicit.value
    else if HintLocal in hints then Local
    else if HintAuto in hints then default
    else if HintRemote in hints then Remote
    else default
  }

  /** Auto does not come before remote: where both are hinted, and nothing else decides, the remote chain is
      wanted although the device is the default, and that is the only case. */
  lemma CollisionsAreAsPromised(explicit: Option<Chain>, hints: set<Hint>, default: Chain)
    ensures ResolveDesired(explicit, hints, default).0 == Promised(explicit, hints, default)
       <==> !(explicit.None? && default == Local && HintLocal !in hints && HintAuto in hints && HintRemote in hints)
    ensures var hints := {HintAuto, HintRemote};
      ResolveDesired(None, hints, Local).0 == Remote && Promised(None, hints, Local) == Local
  {
  }

  /** A query proceeds only where it was wanted, and only where that chain is ready; when
      the other one alone is ready, the person is asked about that one; when none is, it waits
      for the local chain if that was wanted, and fails otherwise. */
  function Resolve(desired: Chain, localReady: bool, remoteReady: bool): (d: Decision)
    ensures d.step == Proceed <==> if desired == Local then localReady else remoteReady
    ensures d.step == Proceed ==> d.chain == desired
    ensures (d.step == ConfirmRemote <==>
             && (if desired == Local then !localReady else !remoteReady)
             && (if desired == Local then remoteReady else localReady))
    ensures d.step == ConfirmRemote ==> d.chain == Other(desired)
    ensures d.step == WaitLocal <==> desired == Local && !localReady && !remoteReady
    ensures d.step == Unavailable <==> desired == Remote && !localReady && !remoteReady
    ensures d.step == WaitLocal || d.step == Unavailable ==> d.chain == desired
  {
    match desired
    case Remote =>
      if remoteReady then Decision(Remote, Proceed)
      else if localReady then Decision(Local, ConfirmRemote)
      else Decision(Remote, Unavailable)
    case Local =>
      if localReady then Decision(Local, Proceed)
      else if remoteReady then Decision(Remote, ConfirmRemote)
      else Decision(Local, WaitLocal)
  }
}

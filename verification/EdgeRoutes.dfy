/**
 Where stack requests are sent, in the edge mode by a switch over path segments and in the direct mode
 by the router.
 */
module EdgeRoutes {
  import opened Common
  import Paths

  datatype Target =
    | List
    | Networks
    | ReadEnv
    | WriteEnv
    | Create
    | Show(name: string)
    | Replace(name: string)
    | Remove(name: string)
    | Deploy(name: string)
    | Act(name: string, action: string)
    | ActOnService(name: string, service: string, action: string)
    | Follow(deploy: string)
    | Refused   // a bad service name or an action that the mode does not know
    | Nowhere

  predicate ValidService(service: string) {
    service != "" && forall i :: 0 <= i < |service| ==> service[i] !in "/\\ "
  }

  /** The actions of the edge mode; the direct mode knows these and "recreate". */
  predicate IsAction(action: string) {
    action in ["up", "start", "stop", "restart", "down", "update"]
  }

  predicate IsServiceAction(action: string) {
    action in ["up", "stop", "restart"]
  }

  // ----- The edge mode -----

  function TrimLeft(path: string): string {
    if path != "" && path[0] == '/' then TrimLeft(path[1..]) else path
  }

  function TrimRight(path: string): string {
    if path != "" && path[|path| - 1] == '/' then TrimRight(path[..|path| - 1]) else path
  }

  /** The segments after the first two. */
  function Sub(path: string): seq<string> {
    var parts := Paths.Split(TrimRight(TrimLeft(path)));
    if |parts| < 2 then [] else parts[2..]
  }

  /** The switch, which looks for "stacks" among the segments that are left. */
  function EdgeTarget(verb: string, sub: seq<string>): Target {
    if sub == [] || sub[0] != "stacks" then Nowhere
    else if verb == "GET" && |sub| == 1 then List
    else if verb == "GET" && sub[1..] == ["meta", "networks"] then Networks
    else if verb == "GET" && sub[1..] == ["meta", "globalenv"] then ReadEnv
    else if verb == "PUT" && sub[1..] == ["meta", "globalenv"] then WriteEnv
    else if verb == "GET" && |sub| == 2 then Show(sub[1])
    else if verb == "POST" && |sub| == 1 then Create
    else if verb == "PUT" && |sub| == 2 then Replace(sub[1])
    else if verb == "DELETE" && |sub| == 2 then Remove(sub[1])
    else if verb == "POST" && |sub| == 3 && sub[2] == "deploy" then Deploy(sub[1])
    else if verb == "POST" && |sub| == 3 then (if IsAction(sub[2]) then Act(sub[1], sub[2]) else Refused)
    else if verb == "POST" && |sub| == 5 && sub[2] == "services" then
      (if ValidService(sub[3]) && IsServiceAction(sub[4]) then ActOnService(sub[1], sub[3], sub[4]) else Refused)
    else Nowhere
  }

  // ----- The direct mode -----

  /** The routes below "/docker/stacks". */
  function DirectTarget(verb: string, segments: seq<string>): Target {
    match |segments|
    case 0 => if verb == "GET" then List else if verb == "POST" then Create else Nowhere
    case 1 =>
      if verb == "GET" then Show(segments[0])
      else if verb == "PUT" then Replace(segments[0])
      else if verb == "DELETE" then Remove(segments[0])
      else Nowhere
    case 2 =>
      if segments == ["meta", "networks"] && verb == "GET" then Networks
      else if segments == ["meta", "globalenv"] && verb == "GET" then ReadEnv
      else if segments == ["meta", "globalenv"] && verb == "PUT" then WriteEnv
      else if segments[1] == "deploy" && verb == "POST" then Deploy(segments[0])
      else if verb == "POST" && (IsAction(segments[1]) || segments[1] == "recreate") then Act(segments[0], segments[1])
      else Nowhere
    case 3 => if segments[..2] == ["deploy", "stream"] && verb == "GET" then Follow(segments[2]) else Nowhere
    case 4 =>
      if verb == "POST" && segments[1] == "services" && (IsServiceAction(segments[3]) || segments[3] == "recreate")
      then (if ValidService(segments[2]) then ActOnService(segments[0], segments[2], segments[3]) else Refused)
      else Nowhere
    case _ => Nowhere
  }

  // ----- Comparing them -----

  ghost predicate AreSegments(segments: seq<string>) {
    forall i :: 0 <= i < |segments| ==> segments[i] != "" && Paths.SlashFree(segments[i])
  }

  function PathOf(segments: seq<string>): string {
    "/" + Paths.Join(["docker", "stacks"] + segments)
  }

  lemma {:induction false} JoinEnds(pieces: seq<string>)
    requires pieces != [] && AreSegments(pieces)
    ensures var path := Paths.Join(pieces); path != "" && path[0] != '/' && path[|path| - 1] != '/'
  {
    assert pieces[0] != "" && Paths.SlashFree(pieces[0]);
    if |pieces| > 1 {
      JoinEnds(pieces[1..]);
    }
  }

  lemma SubOfPath(segments: seq<string>)
    requires AreSegments(segments)
    ensures Sub(PathOf(segments)) == segments
  {
    var pieces := ["docker", "stacks"] + segments;
    JoinEnds(pieces);
    Paths.SplitJoin(pieces);
    assert PathOf(segments)[1..] == Paths.Join(pieces);
    assert TrimRight(TrimLeft(PathOf(segments))) == Paths.Join(pieces);
    assert pieces[2..] == segments;
  }

  /** No request that the direct mode serves reaches the same operation on the same path in the edge mode. */
  lemma NothingIsMirrored(verb: string, segments: seq<string>)
    requires AreSegments(segments) && DirectTarget(verb, segments) != Nowhere
    ensures EdgeTarget(verb, Sub(PathOf(segments))) != DirectTarget(verb, segments)
  {
    hide Sub, PathOf;
    SubOfPath(segments);
  }

  /** Following a deployment and recreating containers are for the direct mode only. */
  predicate OnlyDirect(target: Target) {
    || target.Follow?
    || (target.Act? && target.action == "recreate")
    || (target.ActOnService? && target.action == "recreate")
  }

  /** Behind "stacks" a second time each reaches the same, except those that are for the direct mode only. */
  lemma MirroredBehindASecondPrefix(verb: string, segments: seq<string>)
    requires AreSegments(segments) && DirectTarget(verb, segments) != Nowhere
    ensures EdgeTarget(verb, Sub(PathOf(["stacks"] + segments))) == DirectTarget(verb, segments)
      <==> !OnlyDirect(DirectTarget(verb, segments))
  {
    hide Sub, PathOf;
    SubOfPath(["stacks"] + segments);
    assert (["stacks"] + segments)[1..] == segments;
  }

  /** No other path of the edge mode reaches an operation of the direct mode. */
  lemma SameOperationExactly(verb: string, segments: seq<string>, direct: seq<string>)
    requires AreSegments(segments) && AreSegments(direct)
    requires DirectTarget(verb, direct) != Nowhere && DirectTarget(verb, direct) != Refused
    ensures EdgeTarget(verb, Sub(PathOf(segments))) == DirectTarget(verb, direct)
      <==> segments == ["stacks"] + direct && !OnlyDirect(DirectTarget(verb, direct))
  {
    hide Sub, PathOf;
    SubOfPath(segments);
    if segments == ["stacks"] + direct {
      MirroredBehindASecondPrefix(verb, direct);
    }
  }

  /** There, recreating a stack or a service is refused. */
  lemma RecreateIsRefused(name: string, service: string)
    requires AreSegments([name, service]) && ValidService(service)
    ensures DirectTarget("POST", [name, "recreate"]) == Act(name, "recreate")
    ensures EdgeTarget("POST", Sub(PathOf(["stacks", name, "recreate"]))) == Refused
    ensures DirectTarget("POST", [name, "services", service, "recreate"]) == ActOnService(name, service, "recreate")
    ensures EdgeTarget("POST", Sub(PathOf(["stacks", name, "services", service, "recreate"]))) == Refused
  {
    hide Sub, PathOf;
    assert [name, service][0] == name && [name, service][1] == service;
    assert IsAction("recreate") == IsServiceAction("recreate") == false;
    SubOfPath(["stacks", name, "recreate"]);
    SubOfPath(["stacks", name, "services", service, "recreate"]);
  }
}

/** How internal/core/esi/rate_limited_client.go finds and discovers the limiter of a path, as a
    function on names.  EsiClient proves that the objects follow it. */
module LimiterDirectory {
  import opened Options

  /** The client's default limiter, or the one created for a group. */
  datatype Target = DefaultLimiter | GroupLimiterOf(group: string)

  /** pathToGroup, and the keys of limiters. */
  datatype Directory = Directory(paths: map<string, string>, groups: set<string>)

  const EMPTY: Directory := Directory(map[], {})

  /** The Name field of a limiter. */
  function NameOf(t: Target): string {
    match t
    case DefaultLimiter => "default"
    case GroupLimiterOf(group) => group
  }

  /** getLimiterForPath. */
  function Lookup(d: Directory, path: string): Target {
    if path in d.paths && d.paths[path] in d.groups then GroupLimiterOf(d.paths[path]) else DefaultLimiter
  }

  /** The limiter updateFromHeaders charges, for a response with this X-Ratelimit-Group header to a
      request that was checked on `used`. */
  function Route(d: Directory, used: Target, path: string, header: string): (Directory, Target) {
    if header == "" then (d, used)
    else if path in d.paths && d.paths[path] == header && header in d.groups then (d, GroupLimiterOf(header))
    else if header != NameOf(used) || header !in d.groups then
      (Directory(d.paths[path := header], d.groups + {header}), GroupLimiterOf(header))
    else (d, used)
  }

  predicate WellFormed(d: Directory) {
    forall p :: p in d.paths ==> d.paths[p] in d.groups
  }

  /** A limiter that some lookup has returned. */
  predicate Issued(d: Directory, t: Target) {
    t.GroupLimiterOf? ==> t.group in d.groups
  }

  /** The response of a path that was moved to another group while the request was under way, and
      that names the group it was checked on. */
  predicate MovedMeanwhile(d: Directory, used: Target, path: string, header: string) {
    && path in d.paths && d.paths[path] != header
    && header == NameOf(used) && header in d.groups
  }

  /** After a response that names a group, the next lookup of the path returns the limiter charged,
      unless the path was moved meanwhile. */
  lemma LookupFindsCharged(d: Directory, used: Target, path: string, header: string)
    requires WellFormed(d) && Issued(d, used) && header != ""
    requires path !in d.paths ==> used.DefaultLimiter?
    ensures var (e, charged) := Route(d, used, path, header);
            && WellFormed(e) && Issued(e, charged)
            && (Lookup(e, path) == charged <==> !MovedMeanwhile(d, used, path, header))
  {
  }

  /** The group named "default" is split over two objects: a path without a group, checked on the
      default limiter, stays there once some other path has created the group. */
  predicate SplitDefault(d: Directory, used: Target, path: string, header: string) {
    && header == "default" && used.DefaultLimiter? && header in d.groups
    && !(path in d.paths && d.paths[path] == header)
  }

  /** All responses that name one group are charged to that group's limiter, except for that split. */
  lemma ChargesNamedGroup(d: Directory, used: Target, path: string, header: string)
    requires header != ""
    ensures Route(d, used, path, header).1 == GroupLimiterOf(header) <==> !SplitDefault(d, used, path, header)
  {
  }

  /** When a response is charged to another limiter than the one its request was checked on: it names
      a group, and its path was not on that group's limiter. */
  lemma ChargedElsewhereIff(d: Directory, used: Target, path: string, header: string)
    requires Issued(d, used)
    ensures Route(d, used, path, header).1 != used <==>
            && header != "" && used != GroupLimiterOf(header)
            && !SplitDefault(d, used, path, header)
  {
  }

  // ---- Runs of a client that handles one request at a time ---------------------------------

  datatype Exchange = Exchange(path: string, header: string)

  /** One request: look the limiter up, then route its response. */
  function Handle(d: Directory, x: Exchange): Directory {
    Route(d, Lookup(d, x.path), x.path, x.header).0
  }

  function Settled(xs: seq<Exchange>): Directory {
    if xs == [] then EMPTY else Handle(Settled(xs[..|xs| - 1]), xs[|xs| - 1])
  }

  /** The last group any response of the path named. */
  function LastNamed(xs: seq<Exchange>, path: string): Option<string> {
    if xs == [] then None
    else
      var x := xs[|xs| - 1];
      if x.path == path && x.header != "" then Some(x.header) else LastNamed(xs[..|xs| - 1], path)
  }

  ghost predicate EverOutsideDefault(xs: seq<Exchange>, path: string) {
    exists i :: 0 <= i < |xs| && xs[i].path == path && xs[i].header != "" && xs[i].header != "default"
  }

  /** After any sequence of responses a path is looked up in the group its last response named; it
      can only be on the default limiter while it has named no group but "default". */
  lemma {:induction false} LookupFollowsHeaders(xs: seq<Exchange>, path: string)
    ensures WellFormed(Settled(xs))
    ensures var t := Lookup(Settled(xs), path);
            match LastNamed(xs, path)
            case None => t == DefaultLimiter && !EverOutsideDefault(xs, path)
            case Some(g) => NameOf(t) == g && (EverOutsideDefault(xs, path) ==> t == GroupLimiterOf(g))
  {
    if xs != [] {
      var init, x := xs[..|xs| - 1], xs[|xs| - 1];
      LookupFollowsHeaders(init, path);
      LookupFollowsHeaders(init, x.path);
      assert EverOutsideDefault(xs, path) ==>
               EverOutsideDefault(init, path) || (x.path == path && x.header != "" && x.header != "default") by {
        assert forall i :: 0 <= i < |init| ==> init[i] == xs[i];
      }
      assert EverOutsideDefault(init, path) ==> EverOutsideDefault(xs, path);
    }
  }

  /** The path of the first response that named the group "default". */
  function FirstDefault(xs: seq<Exchange>): Option<string> {
    if xs == [] then None
    else
      var before := FirstDefault(xs[..|xs| - 1]);
      var x := xs[|xs| - 1];
      if before.None? && x.header == "default" then Some(x.path) else before
  }

  /** The first response that names "default" creates that group and maps its path to it; every path
      that has named nothing else stays on the client's default limiter, for good. */
  lemma {:induction false} OnDefaultIff(xs: seq<Exchange>, path: string)
    ensures "default" in Settled(xs).groups <==> FirstDefault(xs).Some?
    ensures Lookup(Settled(xs), path) == DefaultLimiter <==>
            !EverOutsideDefault(xs, path) && FirstDefault(xs) != Some(path)
  {
    if xs != [] {
      var init, x := xs[..|xs| - 1], xs[|xs| - 1];
      OnDefaultIff(init, path);
      OnDefaultIff(init, x.path);
      LookupFollowsHeaders(init, path);
      LookupFollowsHeaders(init, x.path);
      LookupFollowsHeaders(xs, path);
      assert EverOutsideDefault(xs, path) <==>
             EverOutsideDefault(init, path) || (x.path == path && x.header != "" && x.header != "default") by {
        assert forall i :: 0 <= i < |init| ==> init[i] == xs[i];
      }
    }
  }

  /** So the group "default" is split in a client's run exactly when a path that never named another
      group names it after some other path was the first to do so. */
  lemma DefaultSplitIff(xs: seq<Exchange>, path: string)
    ensures var d := Settled(xs);
            Route(d, Lookup(d, path), path, "default").1 == DefaultLimiter <==>
            && !EverOutsideDefault(xs, path)
            && FirstDefault(xs).Some? && FirstDefault(xs) != Some(path)
  {
    OnDefaultIff(xs, path);
    LookupFollowsHeaders(xs, path);
  }

  /** The smallest such run. */
  lemma DefaultIsSplit()
    ensures var d := Settled([Exchange("a", "default")]);
            SplitDefault(d, Lookup(d, "b"), "b", "default") &&
            Route(d, Lookup(d, "a"), "a", "default").1 == GroupLimiterOf("default") &&
            Route(d, Lookup(d, "b"), "b", "default").1 == DefaultLimiter
  {
    var xs := [Exchange("a", "default")];
    assert Settled(xs) == Handle(Settled(xs[..0]), xs[0]) && xs[..0] == [];
  }
}

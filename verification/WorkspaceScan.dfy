/**
 The workspace scan of the node acceptance script: a worklist over remotely
 listed directories that must find no entry with a rejected name.
 */
module WorkspaceScan {
  import opened Wrappers
  import opened Text

  /** A listed entry; name and path may be missing or not strings. */
  datatype Entry = Entry(name: Option<string>, path: Option<string>, kind: string)

  /** What the server lists for a relative directory, if the request succeeds. */
  type Server = string -> Option<seq<Entry>>

  datatype Error = RequestFailed | OverLimit | RejectedName | NoPath | InvalidKind

  predicate HasSoulName(name: Option<string>) {
    name.Some? && Lower(name.value) in {"soul", "soul.md"}
  }

  predicate IsDirectory(e: Entry) {
    e.kind == "directory"
  }

  /** The first complaint about an entry, in the order the checks are made. */
  function Complaint(e: Entry): Option<Error> {
    if HasSoulName(e.name) || HasSoulName(e.path) then Some(RejectedName)
    else if e.path.None? then Some(NoPath)
    else if e.kind != "directory" && e.kind != "file" then Some(InvalidKind)
    else None
  }

  predicate Acceptable(entries: seq<Entry>) {
    forall i :: 0 <= i < |entries| ==> Complaint(entries[i]).None?
  }

  /** The directories among acceptable entries, in order. */
  function Subdirectories(entries: seq<Entry>): seq<string> {
    if entries == [] then []
    else
      var last := entries[|entries| - 1];
      Subdirectories(entries[..|entries| - 1]) + if IsDirectory(last) && last.path.Some? then [last.path.value] else []
  }

  // ── Reachability ───────────────────────────────────────────────────────

  predicate Child(server: Server, dir: string, child: string) {
    server(dir).Some? && child in Subdirectories(server(dir).value)
  }

  ghost predicate IsTrail(server: Server, trail: seq<string>) {
    && trail != [] && trail[0] == ""
    && forall i :: 0 < i < |trail| ==> Child(server, trail[i - 1], trail[i])
  }

  /** Listed under the root through any chain of listings. */
  ghost predicate Reachable(server: Server, dir: string) {
    exists trail :: IsTrail(server, trail) && trail[|trail| - 1] == dir
  }

  lemma RootReachable(server: Server)
    ensures Reachable(server, "")
  {
    assert IsTrail(server, [""]);
  }

  lemma ChildReachable(server: Server, dir: string, child: string)
    requires Reachable(server, dir) && Child(server, dir, child)
    ensures Reachable(server, child)
  {
    var trail :| IsTrail(server, trail) && trail[|trail| - 1] == dir;
    var longer := trail + [child];
    forall i | 0 < i < |longer|
      ensures Child(server, longer[i - 1], longer[i])
    {
      if i < |trail| { assert Child(server, trail[i - 1], trail[i]); }
    }
    assert IsTrail(server, longer);
  }

  /** A set that holds the root and is closed under listing holds everything reachable. */
  lemma {:induction false} ClosedHolds(server: Server, dirs: set<string>, trail: seq<string>)
    requires "" in dirs && forall d, c :: d in dirs && Child(server, d, c) ==> c in dirs
    requires IsTrail(server, trail)
    ensures trail[|trail| - 1] in dirs
    decreases |trail|
  {
    if |trail| > 1 {
      var shorter := trail[..|trail| - 1];
      assert IsTrail(server, shorter);
      ClosedHolds(server, dirs, shorter);
      assert Child(server, trail[|trail| - 2], trail[|trail| - 1]);
    }
  }

  /** Exactly the reachable directories. */
  ghost predicate IsReachableSet(server: Server, dirs: set<string>) {
    forall d :: d in dirs <==> Reachable(server, d)
  }

  /** Few enough reachable directories, each listed, and every listed entry acceptable. */
  ghost predicate CleanWorkspace(server: Server, limit: nat) {
    && (exists dirs: set<string> :: IsReachableSet(server, dirs) && |dirs| <= limit)
    && (forall d :: Reachable(server, d) ==> server(d).Some? && Acceptable(server(d).value))
  }

  // ── The scan ───────────────────────────────────────────────────────────

  /** Checks a listing and queues its directories. */
  method CheckEntries(entries: seq<Entry>, queued: seq<string>) returns (r: Result<seq<string>, Error>)
    ensures r.Ok? <==> Acceptable(entries)
    ensures r.Ok? ==> r.value == queued + Subdirectories(entries)
    ensures r.Err? ==> exists i :: 0 <= i < |entries| && Complaint(entries[i]) == Some(r.error) && Acceptable(entries[..i])
  {
    var queue := queued;
    for i := 0 to |entries|
      invariant Acceptable(entries[..i])
      invariant queue == queued + Subdirectories(entries[..i])
    {
      assert entries[..i + 1][..i] == entries[..i];
      var item := entries[i];
      if HasSoulName(item.name) || HasSoulName(item.path) {
        return Err(RejectedName);
      }
      if item.path.None? {
        return Err(NoPath);
      }
      if item.kind == "directory" {
        queue := queue + [item.path.value];
      } else if item.kind != "file" {
        return Err(InvalidKind);
      }
    }
    assert entries[..|entries|] == entries;
    r := Ok(queue);
  }

  /**
   The worklist accepts exactly the clean workspaces. It then has requested each
   reachable directory once and nothing else, and it always terminates, even
   when listings are cyclic.
   */
  method Scan(server: Server, limit: nat) returns (r: Result<seq<string>, Error>)
    ensures r.Ok? <==> CleanWorkspace(server, limit)
    ensures r.Ok? ==> forall d :: d in r.value <==> Reachable(server, d)
    ensures r.Ok? ==> forall i, j :: 0 <= i < j < |r.value| ==> r.value[i] != r.value[j]
  {
    hide Complaint, Acceptable, Subdirectories, IsTrail;
    var queued := [""];
    var visited: set<string> := {};
    var requested: seq<string> := [];
    RootReachable(server);
    while queued != []
      invariant |visited| <= limit
      invariant forall d :: d in visited <==> d in requested
      invariant forall i, j :: 0 <= i < j < |requested| ==> requested[i] != requested[j]
      invariant forall d :: d in visited || d in queued ==> Reachable(server, d)
      invariant "" in visited || "" in queued
      invariant forall d :: d in visited ==> server(d).Some? && Acceptable(server(d).value)
      invariant forall d, c :: d in visited && Child(server, d, c) ==> c in visited || c in queued
      decreases limit - |visited|, |queued|
    {
      var relative := queued[|queued| - 1];
      ghost var before := queued;
      queued := queued[..|queued| - 1];
      assert before == queued + [relative];
      if relative in visited {
        continue;
      }
      visited := visited + {relative};
      if |visited| > limit {
        TooManyReachable(server, visited, limit);
        return Err(OverLimit);
      }
      var listing := server(relative);
      if listing.None? {
        return Err(RequestFailed);
      }
      requested := requested + [relative];
      var checked := CheckEntries(listing.value, queued);
      if checked.Err? {
        return Err(checked.error);
      }
      forall c | Child(server, relative, c)
        ensures Reachable(server, c)
      {
        ChildReachable(server, relative, c);
      }
      assert forall c :: c in Subdirectories(listing.value) ==> Child(server, relative, c);
      queued := checked.value;
    }
    AllVisited(server, visited);
    r := Ok(requested);
  }

  lemma AllVisited(server: Server, visited: set<string>)
    requires "" in visited && forall d, c :: d in visited && Child(server, d, c) ==> c in visited
    requires forall d :: d in visited ==> Reachable(server, d)
    ensures IsReachableSet(server, visited)
  {
    forall d | Reachable(server, d)
      ensures d in visited
    {
      var trail :| IsTrail(server, trail) && trail[|trail| - 1] == d;
      ClosedHolds(server, visited, trail);
    }
  }

  lemma TooManyReachable(server: Server, visited: set<string>, limit: nat)
    requires |visited| > limit && forall d :: d in visited ==> Reachable(server, d)
    ensures !CleanWorkspace(server, limit)
  {
    forall dirs: set<string> | IsReachableSet(server, dirs)
      ensures |dirs| > limit
    {
      assert visited <= dirs;
      assert dirs == visited + (dirs - visited);
    }
  }

  /** In a clean workspace no reachable listing shows the rejected name, whatever its letter case. */
  lemma CleanHasNoSoul(server: Server, limit: nat, dir: string, e: Entry)
    requires CleanWorkspace(server, limit) && Reachable(server, dir) && e in server(dir).value
    ensures !HasSoulName(e.name) && !HasSoulName(e.path)
  {
    var i :| 0 <= i < |server(dir).value| && server(dir).value[i] == e;
    assert Complaint(server(dir).value[i]).None?;
  }
}

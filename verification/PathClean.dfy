/** Go's path.Clean as its documentation describes it, over slash-separated segments. */
module PathClean {
  import opened Texts

  function Split(path: string): (parts: seq<string>)
    ensures parts != []
  {
    SplitAt(path, '/')
  }

  function Join(parts: seq<string>): string {
    JoinWith(parts, '/')
  }

  /** Resolves each segment against those kept so far. */
  function Resolve(segments: seq<string>, kept: seq<string>, rooted: bool): seq<string>
    decreases segments
  {
    if segments == [] then kept
    else
      var s, rest := segments[0], segments[1..];
      if s == "" || s == "." then Resolve(rest, kept, rooted)
      else if s == ".." then
        if kept != [] && kept[|kept| - 1] != ".." then Resolve(rest, kept[..|kept| - 1], rooted)
        else if rooted then Resolve(rest, kept, rooted)
        else Resolve(rest, kept + [s], rooted)
      else Resolve(rest, kept + [s], rooted)
  }

  predicate Rooted(path: string) {
    path != "" && path[0] == '/'
  }

  function Segments(path: string): seq<string> {
    Resolve(Split(path), [], Rooted(path))
  }

  function Clean(path: string): string {
    var out := (if Rooted(path) then "/" else "") + Join(Segments(path));
    if out == "" then "." else out
  }

  // ---------- cleaned paths ----------

  /** No empty or "." segment, and ".." only in front of an unrooted path. */
  ghost predicate Normal(parts: seq<string>, rooted: bool) {
    && AllWithout(parts, '/')
    && (forall i :: 0 <= i < |parts| ==> parts[i] != "" && parts[i] != ".")
    && (rooted ==> forall i :: 0 <= i < |parts| ==> parts[i] != "..")
    && (forall i, j :: 0 <= i < j < |parts| && parts[j] == ".." ==> parts[i] == "..")
  }

  lemma {:induction false} ResolveNormal(segments: seq<string>, kept: seq<string>, rooted: bool)
    requires AllWithout(segments, '/') && Normal(kept, rooted)
    ensures Normal(Resolve(segments, kept, rooted), rooted)
    decreases segments
  {
    if segments != [] {
      var s, rest := segments[0], segments[1..];
      if s == "" || s == "." {
        ResolveNormal(rest, kept, rooted);
      } else if s == ".." && kept != [] && kept[|kept| - 1] != ".." {
        ResolveNormal(rest, kept[..|kept| - 1], rooted);
      } else if s == ".." && rooted {
        ResolveNormal(rest, kept, rooted);
      } else {
        ResolveNormal(rest, kept + [s], rooted);
      }
    }
  }

  /** Segments that are normal already all stay. */
  lemma {:induction false} ResolveKeeps(segments: seq<string>, kept: seq<string>, rooted: bool)
    requires Normal(kept + segments, rooted)
    ensures Resolve(segments, kept, rooted) == kept + segments
    decreases segments
  {
    if segments == [] {
      assert kept + segments == kept;
    } else {
      var s, rest := segments[0], segments[1..];
      var all := kept + segments;
      assert all == kept + [s] + rest && all[|kept|] == s;
      if kept != [] && s == ".." {
        assert all[|kept| - 1] == kept[|kept| - 1];
      }
      ResolveKeeps(rest, kept + [s], rooted);
    }
  }

  lemma SegmentsNormal(path: string)
    ensures Normal(Segments(path), Rooted(path))
  {
    SplitWithout(path, '/');
    ResolveNormal(Split(path), [], Rooted(path));
  }

  lemma JoinStart(parts: seq<string>, rooted: bool)
    requires parts != [] && Normal(parts, rooted)
    ensures Join(parts) != "" && Join(parts)[0] != '/'
  {
    assert parts[0] != "" && '/' !in parts[0] && parts[0][0] in parts[0];
  }

  /** A cleaned path is rooted as the path was, and has the same segments. */
  lemma CleanSegments(path: string)
    ensures Rooted(Clean(path)) == Rooted(path)
    ensures Segments(Clean(path)) == Segments(path)
  {
    var parts, c := Segments(path), Clean(path);
    SegmentsNormal(path);
    if parts == [] {
      assert c == "/" || c == ".";
      assert Split("") == [""];
      assert Split("/") == ["", ""] by {
        assert "/"[1..] == "";
      }
      SplitFirst(".", "", '/');
      assert Resolve(["", ""], [], true) == [] && Resolve(["."], [], false) == [] by {
        assert ["", ""][1..] == [""] && [""][1..] == [] && ["."][1..] == [];
      }
    } else {
      JoinStart(parts, Rooted(path));
      SplitJoin(parts, '/');
      assert [] + parts == parts;
      ResolveKeeps(parts, [], Rooted(path));
      if Rooted(path) {
        assert c[1..] == Join(parts);
        assert Split(c) == [""] + parts;
        assert ([""] + parts)[1..] == parts;
        assert Resolve([""] + parts, [], true) == Resolve(parts, [], true);
      } else {
        assert c == Join(parts);
      }
    }
  }

  /** Normal segments joined behind a slash are a clean path. */
  lemma NormalIsClean(parts: seq<string>)
    requires parts != [] && Normal(parts, true)
    ensures var path := "/" + Join(parts);
            Clean(path) == path && Split(path[1..]) == parts
  {
    var path := "/" + Join(parts);
    SplitJoin(parts, '/');
    assert path[1..] == Join(parts);
    assert Split(path) == [""] + parts;
    assert ([""] + parts)[1..] == parts && [] + parts == parts;
    ResolveKeeps(parts, [], true);
    assert Resolve([""] + parts, [], true) == Resolve(parts, [], true);
  }

  lemma CleanIdempotent(path: string)
    ensures Clean(Clean(path)) == Clean(path)
  {
    CleanSegments(path);
  }

  function TrimRoot(path: string): string {
    if Rooted(path) then path[1..] else path
  }

  /**
   A cleaned rooted path other than "/" splits into segments that are neither empty nor "." nor
   "..", and joining them gives it back.
   */
  lemma CleanedParts(path: string)
    requires Rooted(path) && Clean(path) != "/"
    ensures var parts := Split(TrimRoot(Clean(path)));
            && parts == Segments(path)
            && (forall i :: 0 <= i < |parts| ==> parts[i] != "" && parts[i] != "." && parts[i] != "..")
            && "/" + Join(parts) == Clean(path)
  {
    var parts := Segments(path);
    SegmentsNormal(path);
    assert parts != [] by {
      assert parts == [] ==> Clean(path) == "/";
    }
    SplitJoin(parts, '/');
    assert TrimRoot(Clean(path)) == Join(parts);
  }

  lemma {:induction false} ResolveAppend(a: seq<string>, b: seq<string>, kept: seq<string>, rooted: bool)
    ensures Resolve(a + b, kept, rooted) == Resolve(b, Resolve(a, kept, rooted), rooted)
    decreases a
  {
    if a == [] {
      assert a + b == b;
    } else {
      assert (a + b)[1..] == a[1..] + b;
      var s := a[0];
      var kept' := if s == "" || s == "." then kept
                   else if s == ".." && kept != [] && kept[|kept| - 1] != ".." then kept[..|kept| - 1]
                   else if s == ".." && rooted then kept
                   else kept + [s];
      ResolveAppend(a[1..], b, kept', rooted);
    }
  }

  predicate Ordinary(s: string) {
    s != "" && s != "." && s != ".."
  }

  /**
   The documented rules, each as a rewriting anywhere in a path: drop an empty or "." segment,
   drop a segment with the ".." after it, drop a ".." at the root. With ResolveKeeps, which
   says that what no rule applies to stays, they determine the result.
   */
  lemma CleanRules(a: seq<string>, b: seq<string>, s: string, rooted: bool)
    ensures Resolve(a + [""] + b, [], rooted) == Resolve(a + b, [], rooted)
    ensures Resolve(a + ["."] + b, [], rooted) == Resolve(a + b, [], rooted)
    ensures Ordinary(s) ==> Resolve(a + [s, ".."] + b, [], rooted) == Resolve(a + b, [], rooted)
    ensures Resolve([".."] + b, [], true) == Resolve(b, [], true)
  {
    var kept := Resolve(a, [], rooted);
    ResolveAppend(a, b, [], rooted);
    forall mid | mid == [""] || mid == ["."] || (Ordinary(s) && mid == [s, ".."])
      ensures Resolve(a + mid + b, [], rooted) == Resolve(a + b, [], rooted)
    {
      ResolveAppend(a + mid, b, [], rooted);
      ResolveAppend(a, mid, [], rooted);
      assert [s, ".."][1..] == [".."] && [".."][1..] == [];
      assert (kept + [s])[..|kept|] == kept;
    }
    assert ([".."] + b)[1..] == b;
  }
}

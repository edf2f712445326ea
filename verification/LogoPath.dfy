/** Normalising the path of a bundled logo, with the path components of a Unix file system. */
module LogoPath {
  import opened Prelude
  import opened Text

  datatype Component = RootDir | CurDir | ParentDir | Normal(name: string)

  /** A piece between slashes; an empty one is no component. */
  function PieceComponent(piece: string): Option<Component> {
    if piece == "" then None
    else if piece == "." then Some(CurDir)
    else if piece == ".." then Some(ParentDir)
    else Some(Normal(piece))
  }

  function PieceComponents(pieces: seq<string>): seq<Component> {
    if pieces == [] then []
    else
      var first := PieceComponent(pieces[0]);
      (if first.Some? then [first.value] else []) + PieceComponents(pieces[1..])
  }

  function Components(path: string): seq<Component> {
    (if path != "" && path[0] == '/' then [RootDir] else []) + PieceComponents(Split(path, '/'))
  }

  predicate Portable(path: string) {
    Lacks(path, '\\') && Lacks(path, ':')
  }

  predicate Refused(c: Component) {
    c == RootDir || c == ParentDir
  }

  /** The names among the components. */
  function Names(cs: seq<Component>): seq<string> {
    if cs == [] then [] else (if cs[0].Normal? then [cs[0].name] else []) + Names(cs[1..])
  }

  function Normalize(path: string): Option<string> {
    var cs := Components(path);
    if !Portable(path) || (exists c :: c in cs && Refused(c)) || Names(cs) == [] then None
    else Some(Join(Names(cs), '/'))
  }

  lemma {:induction false} JoinLast(parts: seq<string>, last: string)
    requires parts != []
    ensures Join(parts + [last], '/') == Join(parts, '/') + "/" + last
  {
    if |parts| > 1 {
      assert (parts + [last])[1..] == parts[1..] + [last];
      JoinLast(parts[1..], last);
    }
  }

  lemma {:induction false} NamesSplit(a: seq<Component>, b: seq<Component>)
    ensures Names(a + b) == Names(a) + Names(b)
  {
    if a == [] {
      assert a + b == b;
    } else {
      assert (a + b)[1..] == a[1..] + b;
      NamesSplit(a[1..], b);
    }
  }

  predicate IsName(piece: string) {
    piece != "" && piece != "." && piece != ".."
  }

  lemma {:induction false} NamesOfPieces(pieces: seq<string>, n: string)
    ensures n in Names(PieceComponents(pieces)) <==> n in pieces && IsName(n)
  {
    if pieces != [] {
      NamesOfPieces(pieces[1..], n);
      var first := PieceComponent(pieces[0]);
      var rest := PieceComponents(pieces[1..]);
      if first.Some? { NamesSplit([first.value], rest); }
      assert [] + rest == rest;
      assert n in pieces <==> n == pieces[0] || n in pieces[1..];
    }
  }

  lemma {:induction false} JoinIsEmptyIff(parts: seq<string>)
    requires forall p :: p in parts ==> p != ""
    ensures Join(parts, '/') == "" <==> parts == []
  {
    if parts != [] { assert parts[0] in parts; }
  }

  lemma PathNames(path: string)
    ensures Names(Components(path)) == Names(PieceComponents(Split(path, '/')))
    ensures forall n :: n in Names(Components(path)) <==> n in Split(path, '/') && IsName(n)
  {
    NamesSplit(if path != "" && path[0] == '/' then [RootDir] else [], PieceComponents(Split(path, '/')));
    forall n
      ensures n in Names(PieceComponents(Split(path, '/'))) <==> n in Split(path, '/') && IsName(n)
    {
      NamesOfPieces(Split(path, '/'), n);
    }
  }

  /** `PathBuf::push`. */
  function Push(buffer: string, name: string): string {
    if buffer == "" then name else buffer + "/" + name
  }

  lemma PushJoins(cs: seq<Component>, c: Component)
    requires forall p :: p in Names(cs) ==> p != ""
    ensures Names(cs + [c]) == if c.Normal? then Names(cs) + [c.name] else Names(cs)
    ensures c.Normal? ==> Join(Names(cs + [c]), '/') == Push(Join(Names(cs), '/'), c.name)
  {
    NamesSplit(cs, [c]);
    JoinIsEmptyIff(Names(cs));
    if c.Normal? && Names(cs) != [] { JoinLast(Names(cs), c.name); }
  }

  lemma PushNext(path: string, n: nat)
    requires n < |Components(path)|
    ensures var cs := Components(path);
            Join(Names(cs[..n + 1]), '/') ==
            if cs[n].Normal? then Push(Join(Names(cs[..n]), '/'), cs[n].name) else Join(Names(cs[..n]), '/')
  {
    var cs := Components(path);
    PathNames(path);
    NamesSplit(cs[..n], cs[n..]);
    assert cs == cs[..n] + cs[n..];
    assert forall p :: p in Names(cs[..n]) ==> p in Names(cs);
    PushJoins(cs[..n], cs[n]);
    assert cs[..n + 1] == cs[..n] + [cs[n]];
  }

  lemma PushedAll(path: string)
    requires Portable(path) && forall m :: 0 <= m < |Components(path)| ==> !Refused(Components(path)[m])
    ensures var all := Join(Names(Components(path)), '/');
            Normalize(path) == if all == "" then None else Some(all)
  {
    PathNames(path);
    JoinIsEmptyIff(Names(Components(path)));
  }

  /** `normalize_logo_path`: pushes the names onto a path buffer, giving up at the first refused component. */
  method NormalizeLogoPath(path: string) returns (r: Option<string>)
    ensures r == Normalize(path)
  {
    if !Portable(path) {
      return None;
    }
    var cs := Components(path);
    var normalized := "";
    var n := 0;
    while n < |cs|
      invariant 0 <= n <= |cs|
      invariant forall m :: 0 <= m < n ==> !Refused(cs[m])
      invariant normalized == Join(Names(cs[..n]), '/')
    {
      if Refused(cs[n]) {
        return None;
      }
      PushNext(path, n);
      if cs[n].Normal? {
        normalized := Push(normalized, cs[n].name);
      }
      n := n + 1;
    }
    assert cs[..n] == cs;
    PushedAll(path);
    return if normalized == "" then None else Some(normalized);
  }

  // ---------------------------------------------------------------------------------------
  // What is accepted
  // ---------------------------------------------------------------------------------------

  /** A proper file name: not empty, no dot entry, no separator. */
  predicate Clean(name: string) {
    name != "" && name != "." && name != ".." && Lacks(name, '/') && Portable(name)
  }

  predicate AllClean(names: seq<string>) {
    names != [] && forall n :: n in names ==> Clean(n)
  }

  lemma {:induction false} RefusedPieces(pieces: seq<string>)
    ensures RootDir !in PieceComponents(pieces)
    ensures ParentDir in PieceComponents(pieces) <==> ".." in pieces
  {
    if pieces != [] { RefusedPieces(pieces[1..]); }
  }

  lemma {:induction false} CleanPieces(names: seq<string>)
    requires forall n :: n in names ==> Clean(n)
    ensures Names(PieceComponents(names)) == names && ParentDir !in PieceComponents(names)
  {
    if names != [] {
      assert names[0] in names && Clean(names[0]);
      CleanPieces(names[1..]);
      NamesSplit([Normal(names[0])], PieceComponents(names[1..]));
      assert names == [names[0]] + names[1..];
    }
  }

  lemma {:induction false} JoinPortable(names: seq<string>)
    requires forall n :: n in names ==> Portable(n)
    ensures Portable(Join(names, '/'))
  {
    if |names| > 1 {
      assert names[0] in names;
      JoinPortable(names[1..]);
    } else if |names| == 1 {
      assert names[0] in names;
    }
  }

  lemma {:induction false} PartsPortable(path: string, piece: string)
    requires Portable(path) && piece in Split(path, '/')
    ensures Portable(piece)
  {
    if path != "" {
      var rest := Split(path[1..], '/');
      if path[0] == '/' {
        if piece in rest { PartsPortable(path[1..], piece); }
      } else {
        PartsPortable(path[1..], rest[0]);
        if piece in rest[1..] { PartsPortable(path[1..], piece); }
      }
    }
  }

  lemma {:induction false} FirstIsSlash(path: string)
    requires path != ""
    ensures path[0] == '/' ==> "" in Split(path, '/') && Split(path, '/')[0] == ""
    ensures path[0] != '/' ==> Split(path, '/')[0] != ""
  {
  }

  /** The joined clean names are a fixed point, and split back into the same names. */
  lemma CleanPathsAreFixed(names: seq<string>)
    requires AllClean(names)
    ensures Split(Join(names, '/'), '/') == names
    ensures Normalize(Join(names, '/')) == Some(Join(names, '/'))
  {
    var path := Join(names, '/');
    SplitJoin(names, '/');
    CleanPieces(names);
    RefusedPieces(names);
    JoinPortable(names);
    assert names[0] in names && Clean(names[0]);
    JoinIsEmptyIff(names);
    FirstIsSlash(path);
    assert [] + PieceComponents(names) == PieceComponents(names);
  }

  /** Accepted output consists of clean names. */
  lemma NormalizedIsClean(path: string)
    requires Normalize(path).Some?
    ensures AllClean(Names(Components(path)))
  {
    PathNames(path);
    JoinSplit(path, '/');
    forall n | n in Names(Components(path))
      ensures Clean(n)
    {
      assert IsName(n);
      PartsPortable(path, n);
    }
  }

  /** Normalising is idempotent, and the result splits back into the clean names of the path. */
  lemma NormalizeIsIdempotent(path: string)
    requires Normalize(path).Some?
    ensures var q := Normalize(path).value;
            && Normalize(q) == Some(q)
            && Split(q, '/') == Names(Components(path)) && AllClean(Split(q, '/'))
  {
    NormalizedIsClean(path);
    CleanPathsAreFixed(Names(Components(path)));
  }

  /** Exactly which paths are accepted. */
  lemma AcceptedIff(path: string)
    ensures Normalize(path).Some? <==>
            && '\\' !in path && ':' !in path
            && !(path != "" && path[0] == '/')
            && ".." !in Split(path, '/')
            && exists piece :: piece in Split(path, '/') && piece != "" && piece != "."
  {
    var pieces := Split(path, '/');
    RefusedPieces(pieces);
    PathNames(path);
    var cs := Components(path);
    if Names(cs) != [] { assert Names(cs)[0] in Names(cs); }
    assert RootDir in cs <==> path != "" && path[0] == '/';
    assert ParentDir in cs <==> ".." in pieces;
  }

  /** Two accepted paths normalise alike iff they have the same names. */
  lemma NormalizedAlikeIff(path: string, path2: string)
    requires Normalize(path).Some? && Normalize(path2).Some?
    ensures Normalize(path) == Normalize(path2) <==> Names(Components(path)) == Names(Components(path2))
  {
    NormalizeIsIdempotent(path);
    NormalizeIsIdempotent(path2);
  }
}

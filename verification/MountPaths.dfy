/** The mount source check of `compile_native_gateway_policy`: a depth counter that keeps a relative path at or below
    the owner root, one level above the stack directory. */
module MountPaths {
  import opened Common

  datatype Component = RootDir | CurDir | ParentDir | Normal(name: string)

  /** The text between slashes. */
  function Pieces(path: string): (r: seq<string>)
    ensures |r| > 0
  {
    if path == "" then [""]
    else
      var rest := Pieces(path[1..]);
      if path[0] == '/' then [""] + rest else [[path[0]] + rest[0]] + rest[1..]
  }

  predicate Skipped(piece: string) {
    piece == "" || piece == "."
  }

  /** Empty pieces and inner `.` vanish; a leading `.` and a leading slash are components of their own. */
  function Named(pieces: seq<string>): seq<Component> {
    if pieces == [] then []
    else
      var n := |pieces| - 1;
      var rest := Named(pieces[..n]);
      if Skipped(pieces[n]) then rest
      else rest + [if pieces[n] == ".." then ParentDir else Normal(pieces[n])]
  }

  /** `Path::components`. */
  function Components(path: string): seq<Component> {
    Leading(path) + Named(Pieces(path))
  }

  function Leading(path: string): seq<Component> {
    if StartsWith(path, "/") then [RootDir] else if Pieces(path)[0] == "." then [CurDir] else []
  }

  // -------------------------------------------------------------------------
  // Components and the text

  function Join(pieces: seq<string>): string {
    if pieces == [] then ""
    else if |pieces| == 1 then pieces[0]
    else pieces[0] + "/" + Join(pieces[1..])
  }

  /** The pieces hold no slash, and slashes put between them give the path back. */
  lemma {:induction false} PiecesOfText(path: string)
    ensures Join(Pieces(path)) == path
    ensures forall i :: 0 <= i < |Pieces(path)| ==> '/' !in Pieces(path)[i]
  {
    if path == "" {
    } else {
      var rest, all := Pieces(path[1..]), Pieces(path);
      PiecesOfText(path[1..]);
      if path[0] == '/' {
        assert all[1..] == rest;
        assert path == "/" + path[1..];
      } else {
        assert all[1..] == rest[1..];
        assert path == [path[0]] + path[1..];
      }
    }
  }

  /** `at` lists, in order, the pieces that are neither empty nor `.`. */
  ghost predicate Names(pieces: seq<string>, at: seq<nat>) {
    && (forall j :: 0 <= j < |at| ==> at[j] < |pieces| && pieces[at[j]] != "" && pieces[at[j]] != ".")
    && (forall j, k :: 0 <= j < k < |at| ==> at[j] < at[k])
    && (forall i: nat :: i < |pieces| && pieces[i] != "" && pieces[i] != "." ==> i in at)
  }

  /** One component for each of those pieces, in order: the parent for `..`, a name for anything else. */
  lemma {:induction false} NamedPieces(pieces: seq<string>) returns (at: seq<nat>)
    ensures Names(pieces, at) && |Named(pieces)| == |at|
    ensures forall j :: 0 <= j < |at| ==>
      && (Named(pieces)[j] == ParentDir <==> pieces[at[j]] == "..")
      && (pieces[at[j]] != ".." ==> Named(pieces)[j] == Normal(pieces[at[j]]))
  {
    if pieces == [] {
      at := [];
    } else {
      var n := |pieces| - 1;
      at := NamedPieces(pieces[..n]);
      if !Skipped(pieces[n]) {
        at := at + [n];
      }
    }
  }

  /** How many pieces lead up. */
  function Ups(pieces: seq<string>): nat {
    if pieces == [] then 0
    else
      var n := |pieces| - 1;
      Ups(pieces[..n]) + (if pieces[n] == ".." then 1 else 0)
  }

  /** How many name a directory or file to go down to. */
  function Downs(pieces: seq<string>): nat {
    if pieces == [] then 0
    else
      var n := |pieces| - 1;
      Downs(pieces[..n]) + (if pieces[n] != "" && pieces[n] != "." && pieces[n] != ".." then 1 else 0)
  }

  /** No prefix of the text leads up more than once beyond what it leads down. */
  ghost predicate Balanced(pieces: seq<string>) {
    forall k :: 0 <= k <= |pieces| ==> Ups(pieces[..k]) <= Downs(pieces[..k]) + 1
  }

  function Depth(cs: seq<Component>): int {
    if cs == [] then 1
    else
      var n := |cs| - 1;
      Depth(cs[..n]) + Change(cs[n])
  }

  function Change(c: Component): int {
    match c
    case Normal(_) => 1
    case ParentDir => -1
    case _ => 0
  }

  ghost predicate NeverNegative(cs: seq<Component>) {
    forall k :: 0 <= k <= |cs| ==> Depth(cs[..k]) >= 0
  }

  lemma NeverNegativeAppend(cs: seq<Component>, c: Component)
    ensures NeverNegative(cs + [c]) <==> NeverNegative(cs) && Depth(cs + [c]) >= 0
  {
    var more := cs + [c];
    assert more[..|more|] == more;
    assert forall k :: 0 <= k <= |cs| ==> more[..k] == cs[..k];
  }

  lemma BalancedFront(pieces: seq<string>)
    requires pieces != []
    ensures Balanced(pieces) <==> Balanced(pieces[..|pieces| - 1]) && Ups(pieces) <= Downs(pieces) + 1
  {
    var front := pieces[..|pieces| - 1];
    assert pieces[..|pieces|] == pieces;
    assert forall k :: 0 <= k < |pieces| ==> pieces[..k] == front[..k];
  }

  lemma {:induction false} NamedDepth(pieces: seq<string>)
    ensures Depth(Named(pieces)) == 1 + Downs(pieces) - Ups(pieces)
  {
    if pieces == [] {
    } else {
      var n := |pieces| - 1;
      NamedDepth(pieces[..n]);
      LastPiece(pieces[n]);
      if !Skipped(pieces[n]) {
        DepthAppend(Named(pieces[..n]), if pieces[n] == ".." then ParentDir else Normal(pieces[n]));
      }
    }
  }

  lemma LastPiece(piece: string)
    ensures piece == ".." ==> !Skipped(piece)
    ensures piece != "" && piece != "." && piece != ".." <==> !Skipped(piece) && piece != ".."
  {
  }

  lemma DepthAppend(cs: seq<Component>, c: Component)
    ensures Depth(cs + [c]) == Depth(cs) + Change(c)
  {
    assert (cs + [c])[..|cs|] == cs;
  }

  lemma {:induction false} NamedBalanced(pieces: seq<string>)
    ensures NeverNegative(Named(pieces)) <==> Balanced(pieces)
  {
    NamedDepth(pieces);
    if pieces == [] {
    } else {
      var n := |pieces| - 1;
      NamedBalanced(pieces[..n]);
      BalancedFront(pieces);
      if Skipped(pieces[n]) {
        BalancedEnd(pieces[..n]);
      } else {
        NeverNegativeAppend(Named(pieces[..n]), if pieces[n] == ".." then ParentDir else Normal(pieces[n]));
      }
    }
  }

  lemma BalancedEnd(pieces: seq<string>)
    ensures Balanced(pieces) ==> Ups(pieces) <= Downs(pieces) + 1
  {
    assert pieces[..|pieces|] == pieces;
  }

  lemma {:induction false} LeadingDot(cs: seq<Component>)
    ensures Depth([CurDir] + cs) == Depth(cs)
  {
    if cs == [] {
      assert [CurDir][..0] == [];
    } else {
      var n := |cs| - 1;
      LeadingDot(cs[..n]);
      assert ([CurDir] + cs)[..n + 1] == [CurDir] + cs[..n];
    }
  }

  lemma LeadingDotNeutral(cs: seq<Component>)
    ensures NeverNegative([CurDir] + cs) <==> NeverNegative(cs)
  {
    var more := [CurDir] + cs;
    forall k | 0 <= k <= |cs| ensures Depth(more[..k + 1]) == Depth(cs[..k]) {
      LeadingDot(cs[..k]);
      assert more[..k + 1] == [CurDir] + cs[..k];
    }
    assert more[..0] == [];
    if NeverNegative(cs) {
      forall k | 0 <= k <= |more| ensures Depth(more[..k]) >= 0 {
        assert k > 0 ==> Depth(more[..k - 1 + 1]) == Depth(cs[..k - 1]);
      }
    }
  }

  lemma {:induction false} NamedHasNoRoot(pieces: seq<string>)
    ensures RootDir !in Named(pieces)
  {
    if pieces == [] {
    } else {
      NamedHasNoRoot(pieces[..|pieces| - 1]);
    }
  }

  /** What the components say of the text: which paths are relative, and how deep they lead. */
  lemma ComponentsOfText(path: string)
    ensures RootDir in Components(path) <==> StartsWith(path, "/")
    ensures forall i :: 0 < i < |Components(path)| ==> !Components(path)[i].RootDir?
    ensures !StartsWith(path, "/") ==> Depth(Components(path)) == 1 + Downs(Pieces(path)) - Ups(Pieces(path))
    ensures !StartsWith(path, "/") ==> (NeverNegative(Components(path)) <==> Balanced(Pieces(path)))
  {
    var named := Named(Pieces(path));
    NamedHasNoRoot(Pieces(path));
    NamedDepth(Pieces(path));
    NamedBalanced(Pieces(path));
    LeadingDot(named);
    LeadingDotNeutral(named);
    assert [] + named == named;
    if StartsWith(path, "/") {
      assert Components(path)[0] == RootDir;
    }
  }

  // -------------------------------------------------------------------------
  // Resolution, independent of any counter

  /** One step from an absolute directory, given by its components; the root is its own parent. */
  function Step(at: seq<string>, c: Component): seq<string> {
    match c
    case RootDir => []
    case CurDir => at
    case ParentDir => if at == [] then [] else at[..|at| - 1]
    case Normal(name) => at + [name]
  }

  function Resolve(at: seq<string>, cs: seq<Component>): seq<string> {
    if cs == [] then at else Step(Resolve(at, cs[..|cs| - 1]), cs[|cs| - 1])
  }

  /** Following `cs` from `root`/`stack` never leaves `root`, at any prefix. */
  ghost predicate StaysBelow(root: seq<string>, stack: string, cs: seq<Component>) {
    forall k :: 0 <= k <= |cs| ==> root <= Resolve(root + [stack], cs[..k])
  }

  lemma ResolvePrefix(at: seq<string>, cs: seq<Component>, k: nat)
    requires k < |cs|
    ensures Resolve(at, cs[..k + 1]) == Step(Resolve(at, cs[..k]), cs[k])
  {
    assert cs[..k + 1][..k] == cs[..k];
  }

  /** The depth loop. `root` and `stack` are where the path will be resolved; the counter does not look at them. */
  method CheckMountDepth(path: string, ghost root: seq<string>, ghost stack: string) returns (r: Result<int>)
    requires root != []
    ensures r.Ok? <==> !StartsWith(path, "/") && Balanced(Pieces(path))
    ensures r.Ok? <==> !StartsWith(path, "/") && StaysBelow(root, stack, Components(path))
    ensures r.Ok? ==> r.value == 1 + Downs(Pieces(path)) - Ups(Pieces(path)) && r.value >= 0
    ensures r.Ok? ==> r.value == |Resolve(root + [stack], Components(path))| - |root|
    ensures StartsWith(path, "/") ==> r == Err("HOST_VM_GATEWAY_MOUNT_PATH_INVALID")
    ensures r.Err? && !StartsWith(path, "/") ==> r == Err("HOST_VM_GATEWAY_MOUNT_ESCAPE_FORBIDDEN")
  {
    ComponentsOfText(path);
    r := CountDepth(Components(path), root, stack);
  }

  method CountDepth(cs: seq<Component>, ghost root: seq<string>, ghost stack: string) returns (r: Result<int>)
    requires root != [] && forall i :: 0 < i < |cs| ==> !cs[i].RootDir?
    ensures r.Ok? <==> RootDir !in cs && NeverNegative(cs)
    ensures r.Ok? <==> RootDir !in cs && StaysBelow(root, stack, cs)
    ensures r.Ok? ==> r.value == Depth(cs) >= 0 && r.value == |Resolve(root + [stack], cs)| - |root|
    ensures RootDir in cs ==> r == Err("HOST_VM_GATEWAY_MOUNT_PATH_INVALID")
    ensures r.Err? && RootDir !in cs ==> r == Err("HOST_VM_GATEWAY_MOUNT_ESCAPE_FORBIDDEN")
  {
    var depth := 1;
    var i := 0;
    assert cs[..0] == [];
    while i < |cs|
      invariant 0 <= i <= |cs|
      invariant forall j :: 0 <= j < i ==> !cs[j].RootDir?
      invariant forall k :: 0 <= k <= i ==> root <= Resolve(root + [stack], cs[..k]) && Depth(cs[..k]) >= 0
      invariant depth == Depth(cs[..i]) == |Resolve(root + [stack], cs[..i])| - |root|
    {
      ResolvePrefix(root + [stack], cs, i);
      assert cs[..i + 1][..i] == cs[..i];
      match cs[i] {
        case RootDir =>
          return Err("HOST_VM_GATEWAY_MOUNT_PATH_INVALID");
        case CurDir =>
        case Normal(_) =>
          depth := depth + 1;
        case ParentDir =>
          depth := depth - 1;
      }
      if depth < 0 {
        assert !(root <= Resolve(root + [stack], cs[..i + 1]));
        return Err("HOST_VM_GATEWAY_MOUNT_ESCAPE_FORBIDDEN");
      }
      i := i + 1;
    }
    assert cs[..i] == cs;
    r := Ok(depth);
  }
}

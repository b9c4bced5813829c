/** The mirror's garbage collector: a recursive mark over the object graph with one
    shared `seen` set, a new pack of everything marked, and deletion of the old packs. */
module Repack {
  import opened Prelude

  type Hash = string
  type PackId = string

  datatype Mode = Dir | Submodule | File
  datatype Entry = Entry(mode: Mode, hash: Hash)

  datatype Object =
    | Commit(tree: Hash, parents: seq<Hash>)
    | Tree(entries: seq<Entry>)
    | Tag(target: Hash)
    | Blob

  datatype Ref = HashRef(hash: Hash) | SymbolicRef(name: string)

  // ---- the object graph ----

  /** The objects an object points at inside this repository: a gitlink's commit lives
      in the submodule's own repository. */
  function Links(o: Object): set<Hash>
  {
    match o
    case Commit(tree, parents) => {tree} + (set p | p in parents)
    case Tree(entries) => set e | e in entries && e.mode != Submodule :: e.hash
    case Tag(target) => {target}
    case Blob => {}
  }

  ghost predicate IsPath(content: Hash -> Object, path: seq<Hash>)
  {
    path != [] && forall i :: 0 <= i < |path| - 1 ==> path[i + 1] in Links(content(path[i]))
  }

  ghost predicate Reaches(content: Hash -> Object, from: Hash, to: Hash)
  {
    exists path :: IsPath(content, path) && path[0] == from && path[|path| - 1] == to
  }

  ghost predicate ClosedUnder(content: Hash -> Object, s: set<Hash>)
  {
    forall h :: h in s ==> Links(content(h)) <= s
  }

  lemma ReachesSelf(content: Hash -> Object, h: Hash)
    ensures Reaches(content, h, h)
  {
    assert IsPath(content, [h]);
  }

  lemma ReachesThrough(content: Hash -> Object, from: Hash, via: Hash, to: Hash)
    requires via in Links(content(from)) && Reaches(content, via, to)
    ensures Reaches(content, from, to)
  {
    var path :| IsPath(content, path) && path[0] == via && path[|path| - 1] == to;
    var longer := [from] + path;
    assert forall i :: 0 < i < |longer| ==> longer[i] == path[i - 1];
    assert IsPath(content, longer);
  }

  lemma ReachesTrans(content: Hash -> Object, a: Hash, b: Hash, c: Hash)
    requires Reaches(content, a, b) && Reaches(content, b, c)
    ensures Reaches(content, a, c)
  {
    var p :| IsPath(content, p) && p[0] == a && p[|p| - 1] == b;
    var q :| IsPath(content, q) && q[0] == b && q[|q| - 1] == c;
    var r := p + q[1..];
    forall i | 0 <= i < |r| - 1
      ensures r[i + 1] in Links(content(r[i]))
    {
      if i < |p| - 1 {
        assert r[i] == p[i] && r[i + 1] == p[i + 1];
      } else {
        assert r[i] == q[i - (|p| - 1)] && r[i + 1] == q[i + 1 - (|p| - 1)];
      }
    }
    assert IsPath(content, r) && r[|r| - 1] == c;
  }

  lemma {:induction false} ClosedContainsPath(content: Hash -> Object, s: set<Hash>, path: seq<Hash>)
    requires ClosedUnder(content, s) && IsPath(content, path) && path[0] in s
    ensures path[|path| - 1] in s
  {
    if |path| > 1 {
      assert IsPath(content, path[1..]);
      assert path[1] in Links(content(path[0]));
      ClosedContainsPath(content, s, path[1..]);
    }
  }

  /** A closed set that reaches nothing extra is the reachable set. */
  lemma ClosureIsReachable(content: Hash -> Object, roots: set<Hash>, s: set<Hash>)
    requires ClosedUnder(content, s) && roots <= s
    requires forall h :: h in s ==> exists r :: r in roots && Reaches(content, r, h)
    ensures forall h :: h in s <==> exists r :: r in roots && Reaches(content, r, h)
  {
    forall h, r | r in roots && Reaches(content, r, h)
      ensures h in s
    {
      var path :| IsPath(content, path) && path[0] == r && path[|path| - 1] == h;
      ClosedContainsPath(content, s, path);
    }
  }

  /** Every object of `kept` has there what it is made of: a commit its tree and parents, a
      tree all but its gitlinks, a tag its target. */
  ghost predicate Whole(content: Hash -> Object, kept: set<Hash>)
  {
    forall h :: h in kept ==>
      match content(h)
      case Commit(tree, parents) => tree in kept && forall p :: p in parents ==> p in kept
      case Tree(entries) => forall e :: e in entries && e.mode != Submodule ==> e.hash in kept
      case Tag(target) => target in kept
      case Blob => true
  }

  /** `kept` has the roots, is whole, and is the least such set. */
  ghost predicate LeastWhole(content: Hash -> Object, roots: set<Hash>, kept: set<Hash>)
  {
    && roots <= kept && Whole(content, kept)
    && forall other :: roots <= other && Whole(content, other) ==> kept <= other
  }

  lemma WholeIsClosed(content: Hash -> Object, s: set<Hash>)
    ensures Whole(content, s) <==> ClosedUnder(content, s)
  {
  }

  ghost predicate IsReachableSet(content: Hash -> Object, roots: set<Hash>, s: set<Hash>)
  {
    forall h :: h in s <==> exists r :: r in roots && Reaches(content, r, h)
  }

  lemma LinkIsReachable(content: Hash -> Object, roots: set<Hash>, s: set<Hash>, h: Hash, x: Hash)
    requires IsReachableSet(content, roots, s) && h in s && x in Links(content(h))
    ensures x in s
  {
    var r :| r in roots && Reaches(content, r, h);
    ReachesSelf(content, x);
    ReachesThrough(content, h, x, x);
    ReachesTrans(content, r, h, x);
  }

  lemma WholeHasReachable(content: Hash -> Object, roots: set<Hash>, other: set<Hash>, h: Hash, r: Hash)
    requires roots <= other && ClosedUnder(content, other) && r in roots && Reaches(content, r, h)
    ensures h in other
  {
    var path :| IsPath(content, path) && path[0] == r && path[|path| - 1] == h;
    ClosedContainsPath(content, other, path);
  }

  lemma ReachableIsWhole(content: Hash -> Object, roots: set<Hash>, s: set<Hash>)
    requires IsReachableSet(content, roots, s)
    ensures roots <= s && Whole(content, s)
  {
    forall h, x | h in s && x in Links(content(h))
      ensures x in s
    {
      LinkIsReachable(content, roots, s, h, x);
    }
    forall r | r in roots
      ensures r in s
    {
      ReachesSelf(content, r);
    }
    WholeIsClosed(content, s);
  }

  lemma ReachableIsLeast(content: Hash -> Object, roots: set<Hash>, s: set<Hash>, other: set<Hash>)
    requires IsReachableSet(content, roots, s) && roots <= other && Whole(content, other)
    ensures s <= other
  {
    WholeIsClosed(content, other);
    forall h | h in s
      ensures h in other
    {
      var r :| r in roots && Reaches(content, r, h);
      WholeHasReachable(content, roots, other, h, r);
    }
  }

  lemma ReachableIsLeastWhole(content: Hash -> Object, roots: set<Hash>, s: set<Hash>)
    requires IsReachableSet(content, roots, s)
    ensures LeastWhole(content, roots, s)
  {
    ReachableIsWhole(content, roots, s);
    forall other | roots <= other && Whole(content, other)
      ensures s <= other
    {
      ReachableIsLeast(content, roots, s, other);
    }
  }

  function Stored(packs: map<PackId, set<Hash>>): (all: set<Hash>)
    ensures forall h :: h in all <==> exists p :: p in packs && h in packs[p]
  {
    set p, h | p in packs && h in packs[p] :: h
  }

  /** Which file operations fail, and the name the new pack gets. */
  datatype Faults = Faults(newPack: PackId, writeFails: bool, stuck: set<PackId>)

  class Marks {
    var seen: set<Hash>

    constructor ()
      ensures seen == {}
    {
      seen := {};
    }
  }

  class Repository {
    const content: Hash -> Object // what each hash denotes
    var packs: map<PackId, set<Hash>>
    var refs: map<string, Ref>

    /** Tree entries have the mode of the object they name. */
    ghost predicate ModesMatch()
      reads this
    {
      forall h, e :: content(h).Tree? && e in content(h).entries && e.mode == File ==> content(e.hash).Blob?
    }

    ghost function Roots(): set<Hash>
      reads this
    {
      set n | n in refs && refs[n].HashRef? :: refs[n].hash
    }

    /** Every hash reference is a root, and nothing else is. */
    lemma RootsAreTheReferences(h: Hash)
      ensures h in Roots() <==> exists n :: n in refs && refs[n] == HashRef(h)
    {
      if h in Roots() {
        var n :| n in refs && refs[n].HashRef? && refs[n].hash == h;
        assert refs[n] == HashRef(h);
      }
    }

    ghost predicate Reachable(h: Hash)
      reads this
    {
      exists r :: r in Roots() && Reaches(content, r, h)
    }

    function Objects(): set<Hash>
      reads this
    {
      Stored(packs)
    }

    /** Everything reachable from a reference is stored. */
    ghost predicate Undamaged()
      reads this
    {
      forall h :: Reachable(h) ==> h in Objects()
    }

    constructor (content: Hash -> Object, packs: map<PackId, set<Hash>>, refs: map<string, Ref>)
      ensures this.content == content && this.packs == packs && this.refs == refs
    {
      this.content, this.packs, this.refs := content, packs, refs;
    }

    ghost predicate NewlyClosed(before: set<Hash>, after: set<Hash>)
      reads this
    {
      forall h :: h in after && h !in before ==> Links(content(h)) <= after
    }

    ghost predicate NewFrom(from: Hash, before: set<Hash>, after: set<Hash>)
      reads this
    {
      forall h :: h in after && h !in before ==> Reaches(content, from, h)
    }

    ghost predicate Intact(h: Hash)
      reads this
    {
      forall x :: Reaches(content, h, x) ==> x in Objects()
    }

    /** Marks `h` and everything reachable from it. False is the "object not found"
        of a damaged store, and only of one: a gitlink never causes it. */
    method Walk(h: Hash, marks: Marks) returns (ok: bool)
      requires ModesMatch()
      modifies marks
      ensures old(marks.seen) <= marks.seen
      ensures NewFrom(h, old(marks.seen), marks.seen)
      ensures ok ==> h in marks.seen && NewlyClosed(old(marks.seen), marks.seen)
      ensures Intact(h) ==> ok
      decreases Objects() - marks.seen, 0
    {
      ReachesSelf(content, h);
      if h in marks.seen {
        return true;
      }
      if h !in Objects() {
        return false;
      }
      ghost var before := marks.seen;
      marks.seen := marks.seen + {h};
      assert Objects() - marks.seen < Objects() - before by {
        assert h in Objects() - before;
      }
      ok := WalkLinks(h, marks);
    }

    /** The dispatch on the kind of an object just marked. */
    method WalkLinks(h: Hash, marks: Marks) returns (ok: bool)
      requires ModesMatch()
      modifies marks
      ensures old(marks.seen) <= marks.seen
      ensures NewFrom(h, old(marks.seen), marks.seen)
      ensures ok ==> NewlyClosed(old(marks.seen), marks.seen) && Links(content(h)) <= marks.seen
      ensures Intact(h) ==> ok
      decreases Objects() - marks.seen, 2
    {
      match content(h) {
        case Commit(tree, parents) =>
          ok := Walk(tree, marks);
          LinkedWalk(h, tree, old(marks.seen), marks.seen);
          if ok {
            ok := WalkParents(h, marks);
          }
        case Tree(_) =>
          ok := WalkEntries(h, marks);
        case Tag(target) =>
          ok := Walk(target, marks);
          LinkedWalk(h, target, old(marks.seen), marks.seen);
        case Blob =>
          ok := true;
      }
    }

    /** The loop over a commit's parents. */
    method WalkParents(h: Hash, marks: Marks) returns (ok: bool)
      requires ModesMatch() && content(h).Commit?
      modifies marks
      ensures old(marks.seen) <= marks.seen
      ensures NewFrom(h, old(marks.seen), marks.seen)
      ensures ok ==> NewlyClosed(old(marks.seen), marks.seen) && forall p :: p in content(h).parents ==> p in marks.seen
      ensures Intact(h) ==> ok
      decreases Objects() - marks.seen, 1
    {
      var parents := content(h).parents;
      for i := 0 to |parents|
        invariant old(marks.seen) <= marks.seen
        invariant NewFrom(h, old(marks.seen), marks.seen)
        invariant NewlyClosed(old(marks.seen), marks.seen)
        invariant forall k :: 0 <= k < i ==> parents[k] in marks.seen
      {
        ghost var mid := marks.seen;
        ok := Walk(parents[i], marks);
        LinkedWalk(h, parents[i], mid, marks.seen);
        if !ok {
          return;
        }
      }
      ok := true;
    }

    /** The loop over a tree's entries: descend, skip a gitlink, or record a blob. */
    method WalkEntries(h: Hash, marks: Marks) returns (ok: bool)
      requires ModesMatch() && content(h).Tree?
      modifies marks
      ensures old(marks.seen) <= marks.seen
      ensures NewFrom(h, old(marks.seen), marks.seen)
      ensures ok ==> NewlyClosed(old(marks.seen), marks.seen) && Links(content(h)) <= marks.seen
      ensures Intact(h) ==> ok
      decreases Objects() - marks.seen, 1
    {
      var entries := content(h).entries;
      for i := 0 to |entries|
        invariant old(marks.seen) <= marks.seen
        invariant NewFrom(h, old(marks.seen), marks.seen)
        invariant NewlyClosed(old(marks.seen), marks.seen)
        invariant forall k :: 0 <= k < i && entries[k].mode != Submodule ==> entries[k].hash in marks.seen
      {
        var e := entries[i];
        ghost var mid := marks.seen;
        match e.mode {
          case Dir =>
            ok := Walk(e.hash, marks);
            LinkedWalk(h, e.hash, mid, marks.seen);
            if !ok {
              return;
            }
          case Submodule =>
          case File =>
            ReachesSelf(content, e.hash);
            ReachesThrough(content, h, e.hash, e.hash);
            marks.seen := marks.seen + {e.hash};
        }
      }
      ok := true;
    }

    /** What a walk from a link of `h` marks is reachable from `h`. */
    lemma LinkedWalk(h: Hash, link: Hash, before: set<Hash>, after: set<Hash>)
      requires link in Links(content(h)) && NewFrom(link, before, after)
      ensures NewFrom(h, before, after)
      ensures Intact(h) ==> Intact(link)
    {
      forall x | Reaches(content, link, x)
        ensures Reaches(content, h, x)
      {
        ReachesThrough(content, h, link, x);
      }
      forall x | x in after && x !in before
        ensures Reaches(content, h, x)
      {
        ReachesThrough(content, h, link, x);
      }
    }

    /** The mark phase over every hash reference. */
    method MarkAll(marks: Marks) returns (ok: bool)
      requires ModesMatch() && marks.seen == {}
      modifies marks
      ensures ok ==> forall h :: h in marks.seen <==> Reachable(h)
      ensures Undamaged() ==> ok
    {
      var rest := refs.Keys;
      while rest != {}
        invariant rest <= refs.Keys
        invariant ClosedUnder(content, marks.seen)
        invariant forall h :: h in marks.seen ==> Reachable(h)
        invariant forall n :: n in refs && n !in rest && refs[n].HashRef? ==> refs[n].hash in marks.seen
      {
        ghost var member := SomeMember(rest);
        var n :| n in rest;
        rest := rest - {n};
        if refs[n].HashRef? {
          ghost var before := marks.seen;
          assert refs[n].hash in Roots();
          assert Undamaged() ==> Intact(refs[n].hash);
          ok := Walk(refs[n].hash, marks);
          if !ok {
            return;
          }
          assert forall h :: h in marks.seen && h !in before ==> Reachable(h);
        }
      }
      ClosureIsReachable(content, Roots(), marks.seen);
      ok := true;
    }

    /** writeObjectPack: fails without effect when an object is missing or the write
        does. Two packs of one name have one content, as the name is a checksum. */
    method WritePack(objs: set<Hash>, faults: Faults) returns (ok: bool)
      modifies this`packs
      ensures ok ==> objs <= old(Objects()) && packs == old(packs)[faults.newPack := objs]
      ensures !ok ==> packs == old(packs)
      ensures !faults.writeFails && objs <= old(Objects()) && faults.newPack !in old(packs) ==> ok
    {
      if faults.writeFails || !(objs <= Objects()) || (faults.newPack in packs && packs[faults.newPack] != objs) {
        return false;
      }
      packs := packs[faults.newPack := objs];
      ok := true;
    }

    /** repackMirror. Whatever fails and wherever, nothing reachable that was stored
        is lost; on success exactly the reachable objects remain, in one pack. */
    method RepackMirror(faults: Faults) returns (ok: bool)
      requires ModesMatch()
      modifies this`packs
      ensures forall h :: Reachable(h) && h in old(Objects()) ==> h in Objects()
      ensures Objects() <= old(Objects())
      ensures ok ==> packs.Keys == {faults.newPack} && forall h :: h in packs[faults.newPack] <==> Reachable(h)
      ensures ok ==> forall h :: h in Objects() <==> Reachable(h)
      ensures ok ==> LeastWhole(content, Roots(), Objects())
      ensures old(Undamaged()) && !faults.writeFails && faults.stuck == {} && faults.newPack !in old(packs) ==> ok
    {
      var oldPacks := packs.Keys;
      var marks := new Marks();
      var marked := MarkAll(marks);
      if !marked {
        return false;
      }
      var wrote := WritePack(marks.seen, faults);
      if !wrote {
        return false;
      }
      var rest := oldPacks;
      while rest != {}
        invariant rest <= oldPacks
        invariant faults.newPack in packs && packs[faults.newPack] == marks.seen
        invariant packs.Keys <= rest + {faults.newPack}
        invariant forall p :: p in packs ==> p == faults.newPack || (p in old(packs) && packs[p] == old(packs)[p])
        invariant forall h :: h in marks.seen <==> Reachable(h)
        invariant marks.seen <= old(Objects())
      {
        ghost var member := SomeMember(rest);
        var p :| p in rest;
        rest := rest - {p};
        if p != faults.newPack {
          if p in faults.stuck {
            return false;
          }
          packs := packs - {p};
        }
      }
      assert Objects() == marks.seen;
      assert IsReachableSet(content, Roots(), marks.seen);
      ReachableIsLeastWhole(content, Roots(), marks.seen);
      ok := true;
    }
  }

  predicate Fetched(f: Fetch)
  {
    f.UpToDate? || f.Update?
  }

  /** The references once `f` has been fetched into `name`. */
  function Moved(refs: map<string, Ref>, name: string, f: Fetch): map<string, Ref>
  {
    if f.Update? then refs[name := HashRef(f.hash)] else refs
  }

  /** After fetching `f` into `name` there is a commit to resolve. */
  predicate HasTip(refs: map<string, Ref>, name: string, f: Fetch)
  {
    f.Update? || (name in refs && refs[name].HashRef?)
  }

  predicate Faultless(faults: Faults, packs: map<PackId, set<Hash>>, base: Fetch, head: Fetch)
  {
    && !faults.writeFails && faults.stuck == {} && faults.newPack !in packs
    && (base.Update? ==> base.pack != faults.newPack) && (head.Update? ==> head.pack != faults.newPack)
  }

  const REPACK_THRESHOLD := 50
  const LOCAL_HEAD := "refs/konflate/pull-head"

  function BranchRef(name: string): (ref: string)
    ensures ref != LOCAL_HEAD
  {
    assert ("refs/heads/" + name)[5] == 'h' && LOCAL_HEAD[5] == 'k';
    "refs/heads/" + name
  }

  // ---- resolving a revision ----

  /** The reference names a revision is tried under, in the order of gitrevisions(7). */
  function RevParse(name: string): seq<string>
  {
    [name, "refs/" + name, "refs/tags/" + name, "refs/heads/" + name, "refs/remotes/" + name,
     "refs/remotes/" + name + "/HEAD"]
  }

  /** The hash of the first name that resolves. */
  function FirstHash(refs: map<string, Ref>, names: seq<string>): Option<Hash>
  {
    if names == [] then None
    else if names[0] in refs && refs[names[0]].HashRef? then Some(refs[names[0]].hash)
    else FirstHash(refs, names[1..])
  }

  function ResolveRevision(refs: map<string, Ref>, name: string): Option<Hash>
  {
    FirstHash(refs, RevParse(name))
  }

  /** What `resolveCommit` finds: the branch of that name first, then the revision itself. */
  function CommitOf(refs: map<string, Ref>, name: string): Option<Hash>
  {
    var branch := ResolveRevision(refs, BranchRef(name));
    if branch.Some? then branch else ResolveRevision(refs, name)
  }

  lemma {:induction false} FirstHashIsARef(refs: map<string, Ref>, names: seq<string>)
    requires FirstHash(refs, names).Some?
    ensures exists n :: n in names && n in refs && refs[n] == HashRef(FirstHash(refs, names).value)
  {
    if !(names[0] in refs && refs[names[0]].HashRef?) {
      FirstHashIsARef(refs, names[1..]);
      var n :| n in names[1..] && n in refs && refs[n] == HashRef(FirstHash(refs, names).value);
      assert n in names;
    } else {
      assert names[0] in names;
    }
  }

  lemma CommitIsARef(refs: map<string, Ref>, name: string)
    requires CommitOf(refs, name).Some?
    ensures exists n :: n in refs && refs[n] == HashRef(CommitOf(refs, name).value)
  {
    if ResolveRevision(refs, BranchRef(name)).Some? {
      FirstHashIsARef(refs, RevParse(BranchRef(name)));
    } else {
      FirstHashIsARef(refs, RevParse(name));
    }
  }

  /** A reference under its own full name is found under it. */
  lemma ExactNameResolves(refs: map<string, Ref>, name: string)
    requires name in refs && refs[name].HashRef?
    ensures ResolveRevision(refs, name) == Some(refs[name].hash)
  {
    assert RevParse(name)[0] == name;
  }

  /** A branch named like the local head reference stands in front of it, at another commit. */
  predicate Shadowed(refs: map<string, Ref>, tip: Hash)
  {
    var branch := ResolveRevision(refs, BranchRef(LOCAL_HEAD));
    branch.Some? && branch.value != tip
  }

  /** The head resolves to the fetched reference exactly when no branch shadows its name
      with another commit. */
  lemma HeadIsTipExactly(refs: map<string, Ref>, tip: Hash)
    requires LOCAL_HEAD in refs && refs[LOCAL_HEAD] == HashRef(tip)
    ensures CommitOf(refs, LOCAL_HEAD) == Some(tip) <==> !Shadowed(refs, tip)
  {
    ExactNameResolves(refs, LOCAL_HEAD);
  }

  /** Against a base branch named like the local head reference every pull request
      renders its base as its head. */
  lemma BaseShadowsHead(refs: map<string, Ref>, base: Fetch, head: Fetch)
    requires base.Update?
    ensures CommitOf(Moved(Moved(refs, BranchRef(LOCAL_HEAD), base), LOCAL_HEAD, head), LOCAL_HEAD) == Some(base.hash)
  {
    ExactNameResolves(Moved(Moved(refs, BranchRef(LOCAL_HEAD), base), LOCAL_HEAD, head), BranchRef(LOCAL_HEAD));
  }

  /** References a mirror can hold after fetching the base branches `bases`. */
  ghost predicate MirrorNames(refs: map<string, Ref>, bases: set<string>)
  {
    forall n :: n in refs ==> n == "HEAD" || n == LOCAL_HEAD || exists b :: b in bases && n == BranchRef(b)
  }

  lemma OtherNames(b: string, n: string)
    requires |n| > 5 && (n[5] == 'r' || n[5] == 't')
    ensures n != "HEAD" && n != LOCAL_HEAD && n != BranchRef(b)
  {
    assert LOCAL_HEAD[5] == 'k' && BranchRef(b)[5] == 'h';
  }

  lemma ShadowNames(bases: set<string>, n: string)
    requires LOCAL_HEAD !in bases && BranchRef(LOCAL_HEAD) !in bases && n in RevParse(BranchRef(LOCAL_HEAD))
    ensures n != "HEAD" && n != LOCAL_HEAD && forall b :: b in bases ==> n != BranchRef(b)
  {
    var names, branch := RevParse(BranchRef(LOCAL_HEAD)), BranchRef(LOCAL_HEAD);
    forall b | b in bases
      ensures n != BranchRef(b)
    {
      if n == names[0] || n == names[3] {
        BranchIsInjective(b, if n == names[0] then LOCAL_HEAD else branch);
      } else {
        assert |n| > 5 && (n[5] == 'r' || n[5] == 't');
        OtherNames(b, n);
      }
    }
    if n == names[0] || n == names[3] {
      assert n[5] == 'h' && LOCAL_HEAD[5] == 'k';
    } else {
      assert |n| > 5 && (n[5] == 'r' || n[5] == 't');
      OtherNames("", n);
    }
  }

  lemma BranchIsInjective(a: string, b: string)
    ensures BranchRef(a) == BranchRef(b) ==> a == b
  {
    assert BranchRef(a)[11..] == a && BranchRef(b)[11..] == b;
  }

  /** In such a mirror only a base branch with one of two names can shadow the head. */
  lemma OrdinaryBasesDoNotShadow(refs: map<string, Ref>, bases: set<string>)
    requires MirrorNames(refs, bases) && LOCAL_HEAD !in bases && BranchRef(LOCAL_HEAD) !in bases
    ensures ResolveRevision(refs, BranchRef(LOCAL_HEAD)) == None
  {
    var branch := BranchRef(LOCAL_HEAD);
    if ResolveRevision(refs, branch).Some? {
      FirstHashIsARef(refs, RevParse(branch));
      var n :| n in RevParse(branch) && n in refs;
      ShadowNames(bases, n);
    }
  }

  /** What one fetch of one ref does; an update brings a pack with what is missing. */
  datatype Fetch = UpToDate | NoSuchRef | Failure | Update(hash: Hash, pack: PackId, objs: set<Hash>)

  datatype Trees = Trees(head: Hash, base: Hash) | HeadGone | Error

  /** The two fetches of one render; the head is not fetched after the base has failed. */
  datatype Cycle = Cycle(baseRef: string, base: Fetch, head: Fetch)

  function AfterCycle(refs: map<string, Ref>, c: Cycle): map<string, Ref>
  {
    if Fetched(c.base) then Moved(Moved(refs, BranchRef(c.baseRef), c.base), LOCAL_HEAD, c.head) else refs
  }

  function AfterCycles(refs: map<string, Ref>, cycles: seq<Cycle>): map<string, Ref>
  {
    if cycles == [] then refs else AfterCycle(AfterCycles(refs, cycles[..|cycles| - 1]), cycles[|cycles| - 1])
  }

  predicate Ordinary(branch: string)
  {
    branch != LOCAL_HEAD && branch != BranchRef(LOCAL_HEAD)
  }

  /** Over any renders against ordinary base branches, whatever their fetches do, the head
      last fetched is the head found. */
  lemma {:induction false} OrdinaryRunsFindTheHead(refs: map<string, Ref>, bases: set<string>, cycles: seq<Cycle>)
    requires MirrorNames(refs, bases) && forall b :: b in bases ==> Ordinary(b)
    requires forall c :: c in cycles ==> Ordinary(c.baseRef)
    ensures MirrorNames(AfterCycles(refs, cycles), bases + set c | c in cycles :: c.baseRef)
    ensures cycles != [] && Fetched(cycles[|cycles| - 1].base) && cycles[|cycles| - 1].head.Update? ==>
              CommitOf(AfterCycles(refs, cycles), LOCAL_HEAD) == Some(cycles[|cycles| - 1].head.hash)
  {
    var seen := bases + set c | c in cycles :: c.baseRef;
    if cycles != [] {
      var front, c := cycles[..|cycles| - 1], cycles[|cycles| - 1];
      OrdinaryRunsFindTheHead(refs, bases, front);
      assert c in cycles && c.baseRef in seen;
      var after := AfterCycles(refs, cycles);
      assert MirrorNames(after, seen);
      if Fetched(c.base) && c.head.Update? {
        OrdinaryBasesDoNotShadow(after, seen);
        HeadIsTipExactly(after, c.head.hash);
      }
    }
  }

  /** After the two fetches each tip is found under its name. */
  lemma TipsResolve(before: map<string, Ref>, refs: map<string, Ref>, baseRef: string, base: Fetch, head: Fetch)
    requires refs == Moved(Moved(before, BranchRef(baseRef), base), LOCAL_HEAD, head)
    ensures HasTip(before, LOCAL_HEAD, head) ==> CommitOf(refs, LOCAL_HEAD).Some?
    ensures HasTip(before, BranchRef(baseRef), base) ==> CommitOf(refs, baseRef).Some?
    ensures base.Update? ==> CommitOf(refs, baseRef) == Some(base.hash)
    ensures head.Update? ==> (CommitOf(refs, LOCAL_HEAD) == Some(head.hash) <==> !Shadowed(refs, head.hash))
  {
    if HasTip(before, LOCAL_HEAD, head) {
      ExactNameResolves(refs, LOCAL_HEAD);
    }
    if HasTip(before, BranchRef(baseRef), base) {
      ExactNameResolves(refs, BranchRef(baseRef));
    }
    if head.Update? {
      HeadIsTipExactly(refs, head.hash);
    }
  }

  class Mirror {
    const repo: Repository

    constructor (repo: Repository)
      ensures this.repo == repo
    {
      this.repo := repo;
    }

    /** The forge sends every object the new tip needs and the mirror lacks. */
    ghost predicate Delivers(f: Fetch)
      reads repo
    {
      f.Update? ==>
        && f.pack !in repo.packs
        && forall h :: Reaches(repo.content, f.hash, h) ==> h in repo.Objects() || h in f.objs
    }

    method FetchSpec(dst: string, f: Fetch) returns (ok: bool)
      requires repo.Undamaged() && Delivers(f)
      modifies repo`packs, repo`refs
      ensures ok <==> Fetched(f)
      ensures repo.Undamaged()
      ensures repo.refs == Moved(old(repo.refs), dst, f)
      ensures old(repo.Objects()) <= repo.Objects()
      ensures repo.packs.Keys == if f.Update? then old(repo.packs).Keys + {f.pack} else old(repo.packs).Keys
    {
      if f.Update? {
        repo.packs := repo.packs[f.pack := f.objs];
        repo.refs := repo.refs[dst := HashRef(f.hash)];
        assert forall p :: p in old(repo.packs) ==> repo.packs[p] == old(repo.packs)[p];
        assert old(repo.Objects()) <= repo.Objects();
        assert f.objs <= repo.Objects() by {
          assert repo.packs[f.pack] == f.objs;
        }
        forall h | repo.Reachable(h)
          ensures h in repo.Objects()
        {
          var r :| r in repo.Roots() && Reaches(repo.content, r, h);
          if r != f.hash {
            assert r in old(repo.Roots()) && old(repo.Reachable(h));
          } else {
            assert h in old(repo.Objects()) || h in f.objs;
          }
        }
      }
      ok := Fetched(f);
    }

    /** The critical section of one render: the fetch cycle, then the commit to compare
        the head with. Whatever fails, the mirror stays undamaged; and the trees it
        returns are whole even when this very call repacked. */
    method Render(baseRef: string, base: Fetch, head: Fetch, faults: Faults, bases: (Hash, Hash) -> seq<Hash>)
      returns (t: Trees)
      requires repo.ModesMatch() && repo.Undamaged() && Delivers(base) && Delivers(head)
      requires base.Update? && head.Update? ==> head.pack != base.pack
      requires Ancestral(bases)
      modifies repo`packs, repo`refs
      ensures repo.Undamaged()
      ensures t.Trees? ==>
                && CommitOf(repo.refs, LOCAL_HEAD) == Some(t.head) && repo.Intact(t.head) && repo.Intact(t.base)
                && CommitOf(repo.refs, baseRef).Some?
                && var tip := CommitOf(repo.refs, baseRef).value;
                   && (bases(t.head, tip) != [] ==> t.base == bases(t.head, tip)[0])
                   && (bases(t.head, tip) == [] ==> t.base == tip)
      ensures t.Trees? && head.Update? ==> (t.head == head.hash <==> !Shadowed(repo.refs, head.hash))
      ensures t.Trees? && base.Update? && bases(t.head, base.hash) != [] ==> t.base == bases(t.head, base.hash)[0]
      ensures t.Trees? && base.Update? && bases(t.head, base.hash) == [] ==> t.base == base.hash
      ensures t.Trees? ==> |repo.packs| < REPACK_THRESHOLD || |repo.packs| == 1
      ensures repo.refs == AfterCycle(old(repo.refs), Cycle(baseRef, base, head))
      ensures t.HeadGone? <==> Fetched(base) && head.NoSuchRef?
      ensures Fetched(base) && Fetched(head) && HasTip(old(repo.refs), LOCAL_HEAD, head)
              && HasTip(old(repo.refs), BranchRef(baseRef), base) && Faultless(faults, old(repo.packs), base, head)
              ==> t.Trees?
    {
      t := FetchLocked(baseRef, base, head, faults);
      if t.Trees? {
        var found := PickBase(t.head, t.base, bases);
        t := Trees(t.head, found);
      }
    }

    /** Common ancestors are ancestors of the head. */
    ghost predicate Ancestral(bases: (Hash, Hash) -> seq<Hash>)
    {
      forall h, b, x :: x in bases(h, b) ==> Reaches(repo.content, h, x)
    }

    /** The commit the head is compared with: the first common ancestor, or the base tip
        where there is none. `bases` is what git answers. */
    method PickBase(head: Hash, base: Hash, bases: (Hash, Hash) -> seq<Hash>) returns (found: Hash)
      requires Ancestral(bases) && repo.Intact(head) && repo.Intact(base)
      ensures bases(head, base) != [] ==> found == bases(head, base)[0]
      ensures bases(head, base) == [] ==> found == base
      ensures repo.Intact(found)
    {
      found := base;
      var common := bases(head, base);
      if |common| > 0 {
        found := common[0];
        assert found in bases(head, base);
        AncestorsAreIntact(head, found);
      }
    }

    /** fetchLocked: fetch both references, repack when the packs have piled up, resolve
        both commits. */
    method FetchLocked(baseRef: string, base: Fetch, head: Fetch, faults: Faults) returns (t: Trees)
      requires repo.ModesMatch() && repo.Undamaged() && Delivers(base) && Delivers(head)
      requires base.Update? && head.Update? ==> head.pack != base.pack
      modifies repo`packs, repo`refs
      ensures repo.Undamaged()
      ensures t.Trees? ==>
                && CommitOf(repo.refs, LOCAL_HEAD) == Some(t.head) && CommitOf(repo.refs, baseRef) == Some(t.base)
                && repo.Intact(t.head) && repo.Intact(t.base)
      ensures t.Trees? && head.Update? ==> (t.head == head.hash <==> !Shadowed(repo.refs, head.hash))
      ensures t.Trees? && base.Update? ==> t.base == base.hash
      ensures t.Trees? ==> |repo.packs| < REPACK_THRESHOLD || |repo.packs| == 1
      ensures repo.refs == AfterCycle(old(repo.refs), Cycle(baseRef, base, head))
      ensures t.HeadGone? <==> Fetched(base) && head.NoSuchRef?
      ensures Fetched(base) && Fetched(head) && HasTip(old(repo.refs), LOCAL_HEAD, head)
              && HasTip(old(repo.refs), BranchRef(baseRef), base) && Faultless(faults, old(repo.packs), base, head)
              ==> t.Trees?
    {
      ghost var before := repo.refs;
      var fetched := FetchRefs(baseRef, base, head);
      if !fetched {
        return if Fetched(base) && head.NoSuchRef? then HeadGone else Error;
      }
      var ok := MaybeRepack(faults);
      if !ok {
        return Error;
      }
      TipsResolve(before, repo.refs, baseRef, base, head);
      t := Resolve(baseRef);
    }

    lemma AncestorsAreIntact(h: Hash, x: Hash)
      requires repo.Intact(h) && Reaches(repo.content, h, x)
      ensures repo.Intact(x)
    {
      forall y | Reaches(repo.content, x, y)
        ensures y in repo.Objects()
      {
        ReachesTrans(repo.content, h, x, y);
      }
    }

    /** The base branch first, then the pull request's head. */
    method FetchRefs(baseRef: string, base: Fetch, head: Fetch) returns (ok: bool)
      requires repo.Undamaged() && Delivers(base) && Delivers(head)
      requires base.Update? && head.Update? ==> head.pack != base.pack
      modifies repo`packs, repo`refs
      ensures ok <==> Fetched(base) && Fetched(head)
      ensures repo.Undamaged()
      ensures repo.refs == AfterCycle(old(repo.refs), Cycle(baseRef, base, head))
      ensures forall p :: p in repo.packs ==> p in old(repo.packs) || (base.Update? && p == base.pack) || (head.Update? && p == head.pack)
    {
      ok := FetchSpec(BranchRef(baseRef), base);
      if !ok {
        return;
      }
      ok := FetchSpec(LOCAL_HEAD, head);
    }

    method MaybeRepack(faults: Faults) returns (ok: bool)
      requires repo.ModesMatch() && repo.Undamaged()
      modifies repo`packs
      ensures repo.Undamaged()
      ensures ok ==> |repo.packs| < REPACK_THRESHOLD || |repo.packs| == 1
      ensures |old(repo.packs)| < 50 ==> ok && repo.packs == old(repo.packs)
      ensures !faults.writeFails && faults.stuck == {} && faults.newPack !in old(repo.packs) ==> ok
    {
      if |repo.packs| < REPACK_THRESHOLD {
        return true;
      }
      ok := repo.RepackMirror(faults);
      assert ok ==> repo.packs.Keys == {faults.newPack} && |repo.packs.Keys| == 1;
    }

    /** resolveCommit over its two candidates. */
    method ResolveCommit(name: string) returns (commit: Option<Hash>)
      ensures commit == CommitOf(repo.refs, name)
    {
      var candidates := [BranchRef(name), name];
      for i := 0 to 2
        invariant forall k :: 0 <= k < i ==> ResolveRevision(repo.refs, candidates[k]).None?
      {
        commit := ResolveRevision(repo.refs, candidates[i]);
        assert i == 1 ==> ResolveRevision(repo.refs, candidates[0]).None?;
        if commit.Some? {
          return;
        }
      }
      assert ResolveRevision(repo.refs, candidates[0]).None? && ResolveRevision(repo.refs, candidates[1]).None?;
      commit := None;
    }

    /** Both commits, with everything below them. */
    method Resolve(baseRef: string) returns (t: Trees)
      requires repo.Undamaged()
      ensures !t.HeadGone?
      ensures t.Trees? <==> CommitOf(repo.refs, LOCAL_HEAD).Some? && CommitOf(repo.refs, baseRef).Some?
      ensures t.Trees? ==>
                && CommitOf(repo.refs, LOCAL_HEAD) == Some(t.head) && CommitOf(repo.refs, baseRef) == Some(t.base)
                && repo.Intact(t.head) && repo.Intact(t.base)
    {
      var head := ResolveCommit(LOCAL_HEAD);
      if head.None? {
        return Error;
      }
      var base := ResolveCommit(baseRef);
      if base.None? {
        return Error;
      }
      CommitIsARef(repo.refs, LOCAL_HEAD);
      CommitIsARef(repo.refs, baseRef);
      assert head.value in repo.Roots() && base.value in repo.Roots();
      return Trees(head.value, base.value);
    }
  }
}

/** Moving one directory tree into another without overwriting anything. */
module MergeTree {
  import opened Text

  /** A file with its content, or a directory; there are no symbolic links. */
  datatype Node = File(content: string) | Dir(children: map<string, Node>)

  /** What the two trees are after the move; the source directory may be gone. */
  datatype Merged = Merged(src: Option<Node>, dst: Node)

  /** A directory is removed when nothing is left in it. */
  function Remaining(children: map<string, Node>): Option<Node> {
    if children == map[] then None else Some(Dir(children))
  }

  /** The destination: what it had, directories merged, plus what it lacked. */
  function MergedDst(src: Node, dst: Node): (r: Node)
    requires src.Dir? && dst.Dir?
    ensures r.Dir?
    decreases src
  {
    var s, d := src.children, dst.children;
    Dir(map n | n in s.Keys + d.Keys ::
          if n !in d then s[n]
          else if n in s && s[n].Dir? && d[n].Dir? then MergedDst(s[n], d[n])
          else d[n])
  }

  /** The children that stay in the source because the destination has another node of that name. */
  function LeftChildren(src: Node, dst: Node): map<string, Node>
    requires src.Dir? && dst.Dir?
    decreases src, 0
  {
    var s, d := src.children, dst.children;
    map n | n in s && n in d && (s[n].Dir? && d[n].Dir? ==> MergedSrc(s[n], d[n]).Some?) ::
      if s[n].Dir? && d[n].Dir? then MergedSrc(s[n], d[n]).value else s[n]
  }

  function MergedSrc(src: Node, dst: Node): Option<Node>
    requires src.Dir? && dst.Dir?
    decreases src, 1
  {
    Remaining(LeftChildren(src, dst))
  }

  /** Part of the way: the children in `todo` are as they were, the others are dealt with. */
  ghost predicate MergedUpTo(src: Node, dst: Node, todo: set<string>, s: map<string, Node>, d: map<string, Node>)
    requires src.Dir? && dst.Dir?
  {
    var left, into := LeftChildren(src, dst), MergedDst(src, dst).children;
    && todo <= src.children.Keys
    && (forall n :: n in s <==> n in todo || n in left)
    && (forall n :: n in s ==> s[n] == if n in todo then src.children[n] else left[n])
    && (forall n :: n in d <==> n in dst.children || (n in src.children && n !in todo))
    && (forall n :: n in d ==> d[n] == if n in todo then dst.children[n] else into[n])
  }

  /** What dealing with one child makes of the two directories. */
  function AfterChild(src: Node, dst: Node, n: string, s: map<string, Node>, d: map<string, Node>)
    : (map<string, Node>, map<string, Node>)
    requires src.Dir? && dst.Dir? && n in src.children
  {
    var child := src.children[n];
    if n !in dst.children then (s - {n}, d[n := child])
    else if child.Dir? && dst.children[n].Dir? then
      var left := MergedSrc(child, dst.children[n]);
      (if left.Some? then s[n := left.value] else s - {n}, d[n := MergedDst(child, dst.children[n])])
    else (s, d)
  }

  lemma ChildMerged(src: Node, dst: Node, todo: set<string>, n: string, s: map<string, Node>, d: map<string, Node>)
    requires src.Dir? && dst.Dir? && n in todo && MergedUpTo(src, dst, todo, s, d)
    ensures var (s', d') := AfterChild(src, dst, n, s, d); MergedUpTo(src, dst, todo - {n}, s', d')
    ensures n in s && s[n] == src.children[n]
    ensures n in d <==> n in dst.children
    ensures n in d ==> d[n] == dst.children[n]
  {
  }

  lemma AllMerged(src: Node, dst: Node, s: map<string, Node>, d: map<string, Node>)
    requires src.Dir? && dst.Dir? && MergedUpTo(src, dst, {}, s, d)
    ensures s == LeftChildren(src, dst) && d == MergedDst(src, dst).children
  {
  }

  /** The path is reported as moved: the destination lacked it, but had every directory above it. */
  predicate MovedAt(src: Node, dst: Node, path: seq<string>)
    decreases |path|
  {
    && src.Dir? && dst.Dir? && path != [] && path[0] in src.children
    && if path[0] in dst.children then MovedAt(src.children[path[0]], dst.children[path[0]], path[1..]) else |path| == 1
  }

  /** The path is reported as skipped: both trees have it, and not as a directory in both. */
  predicate SkippedAt(src: Node, dst: Node, path: seq<string>)
    decreases |path|
  {
    && src.Dir? && dst.Dir? && path != [] && path[0] in src.children && path[0] in dst.children
    && var s, d := src.children[path[0]], dst.children[path[0]];
       if s.Dir? && d.Dir? then SkippedAt(s, d, path[1..]) else |path| == 1
  }

  /** The lists of moved and skipped paths hold exactly the paths below the children dealt with. */
  ghost predicate ReportedUpTo(src: Node, dst: Node, todo: set<string>, moved: set<seq<string>>,
                               skipped: set<seq<string>>)
  {
    && (forall p :: p in moved <==> MovedAt(src, dst, p) && p[0] !in todo)
    && (forall p :: p in skipped <==> SkippedAt(src, dst, p) && p[0] !in todo)
  }

  function Below(n: string, paths: set<seq<string>>): set<seq<string>> {
    set p | p in paths :: [n] + p
  }

  lemma BelowMember(n: string, paths: set<seq<string>>, p: seq<string>)
    ensures p in Below(n, paths) <==> p != [] && p[0] == n && p[1..] in paths
  {
    if p != [] && p[0] == n && p[1..] in paths {
      assert p == [n] + p[1..];
    }
    if p in Below(n, paths) {
      var q :| q in paths && p == [n] + q;
      assert p[1..] == q;
    }
  }

  lemma ReportChild(src: Node, dst: Node, todo: set<string>, n: string, moved: set<seq<string>>,
                    skipped: set<seq<string>>, m: set<seq<string>>, k: set<seq<string>>)
    requires ReportedUpTo(src, dst, todo, moved, skipped)
    requires src.Dir? && dst.Dir? && n in todo && todo <= src.children.Keys
    requires forall p :: p in m <==> MovedAt(src, dst, p) && p[0] == n
    requires forall p :: p in k <==> SkippedAt(src, dst, p) && p[0] == n
    ensures ReportedUpTo(src, dst, todo - {n}, moved + m, skipped + k)
  {
  }

  /** A directory on both sides reports what lies below it. */
  lemma ReportBelow(src: Node, dst: Node, n: string, m: set<seq<string>>, k: set<seq<string>>)
    requires src.Dir? && dst.Dir? && n in src.children && n in dst.children
    requires src.children[n].Dir? && dst.children[n].Dir?
    requires ReportedUpTo(src.children[n], dst.children[n], {}, m, k)
    ensures forall p :: p in Below(n, m) <==> MovedAt(src, dst, p) && p[0] == n
    ensures forall p :: p in Below(n, k) <==> SkippedAt(src, dst, p) && p[0] == n
  {
    forall p ensures p in Below(n, m) <==> MovedAt(src, dst, p) && p[0] == n { BelowMember(n, m, p); }
    forall p ensures p in Below(n, k) <==> SkippedAt(src, dst, p) && p[0] == n { BelowMember(n, k, p); }
  }

  /** A child that is moved or skipped as a whole reports itself and nothing below. */
  lemma ReportLeaf(src: Node, dst: Node, n: string, p: seq<string>)
    requires src.Dir? && dst.Dir? && n in src.children
    requires n in dst.children ==> !(src.children[n].Dir? && dst.children[n].Dir?)
    ensures MovedAt(src, dst, p) && p[0] == n <==> n !in dst.children && p == [n]
    ensures SkippedAt(src, dst, p) && p[0] == n <==> n in dst.children && p == [n]
  {
    if |p| == 1 {
      assert p == [p[0]];
    }
  }

  /**
   Moves the children one by one, in any order, descends where both sides have a directory, and
   removes the source if nothing is left. `moved` and `skipped` list the paths that were moved and left.
   */
  method MergeMoveTree(src: Node, dst: Node) returns (r: Merged, moved: set<seq<string>>, skipped: set<seq<string>>)
    requires src.Dir? && dst.Dir?
    ensures r == Merged(MergedSrc(src, dst), MergedDst(src, dst))
    ensures ReportedUpTo(src, dst, {}, moved, skipped)
    decreases src, 1
  {
    var s, d := src.children, dst.children;
    var todo := src.children.Keys;
    moved, skipped := {}, {};
    while todo != {}
      invariant MergedUpTo(src, dst, todo, s, d)
      invariant ReportedUpTo(src, dst, todo, moved, skipped)
      decreases todo
    {
      var n :| n in todo;
      var m, k: set<seq<string>>;
      s, d, m, k := MergeChild(src, dst, todo, n, s, d);
      ReportChild(src, dst, todo, n, moved, skipped, m, k);
      todo, moved, skipped := todo - {n}, moved + m, skipped + k;
    }
    AllMerged(src, dst, s, d);
    r := Merged(Remaining(s), Dir(d));
  }

  /** Deals with one child. */
  method MergeChild(src: Node, dst: Node, ghost todo: set<string>, n: string, s: map<string, Node>,
                    d: map<string, Node>)
    returns (s': map<string, Node>, d': map<string, Node>, m: set<seq<string>>, k: set<seq<string>>)
    requires src.Dir? && dst.Dir? && n in todo && MergedUpTo(src, dst, todo, s, d)
    ensures MergedUpTo(src, dst, todo - {n}, s', d')
    ensures forall p :: p in m <==> MovedAt(src, dst, p) && p[0] == n
    ensures forall p :: p in k <==> SkippedAt(src, dst, p) && p[0] == n
    decreases src, 0
  {
    ChildMerged(src, dst, todo, n, s, d);
    s', d', m, k := s, d, {}, {};
    if n !in d {
      s', d', m := s - {n}, d[n := src.children[n]], {[n]};
    } else if s[n].Dir? && d[n].Dir? {
      var inner, below, left := MergeMoveTree(s[n], d[n]);
      d' := d[n := inner.dst];
      s' := if inner.src.Some? then s[n := inner.src.value] else s - {n};
      m, k := Below(n, below), Below(n, left);
      ReportBelow(src, dst, n, below, left);
      return;
    } else {
      k := {[n]};
    }
    forall p ensures p in m <==> MovedAt(src, dst, p) && p[0] == n { ReportLeaf(src, dst, n, p); }
    forall p ensures p in k <==> SkippedAt(src, dst, p) && p[0] == n { ReportLeaf(src, dst, n, p); }
  }

  // ---- Files by path

  function FileAt(node: Option<Node>, path: seq<string>): Option<string>
    decreases |path|
  {
    if node.None? then None
    else if path == [] then if node.value.File? then Some(node.value.content) else None
    else if node.value.File? || path[0] !in node.value.children then None
    else FileAt(Some(node.value.children[path[0]]), path[1..])
  }

  /** On the way down `path`, the destination has something else than a directory to descend into. */
  predicate Blocked(dst: Node, path: seq<string>)
    decreases |path|
  {
    path == [] || dst.File? || (path[0] in dst.children && Blocked(dst.children[path[0]], path[1..]))
  }

  lemma LeftChild(src: Node, dst: Node, n: string)
    requires src.Dir? && dst.Dir?
    ensures var left, s, d := MergedSrc(src, dst), src.children, dst.children;
            && (left.Some? ==> left.value.Dir?)
            && (left.Some? && n in left.value.children ==> n in s && n in d)
            && (n in s && n in d ==>
                  if s[n].Dir? && d[n].Dir? then
                    (if left.Some? && n in left.value.children
                     then MergedSrc(s[n], d[n]) == Some(left.value.children[n])
                     else MergedSrc(s[n], d[n]).None?)
                  else left.Some? && n in left.value.children && left.value.children[n] == s[n])
  {
    var kept := LeftChildren(src, dst);
    assert n in kept ==> n in kept.Keys && kept != map[];
  }

  /**
   Every source file is afterwards at its place in exactly one of the trees: still in the source, with
   the destination untouched there, if the destination blocks its path; otherwise in the destination.
   */
  lemma {:induction false} SourceFilesKept(src: Node, dst: Node, path: seq<string>)
    requires src.Dir? && dst.Dir? && FileAt(Some(src), path).Some?
    ensures if Blocked(dst, path)
            then FileAt(MergedSrc(src, dst), path) == FileAt(Some(src), path)
                 && FileAt(Some(MergedDst(src, dst)), path) == FileAt(Some(dst), path)
            else FileAt(Some(MergedDst(src, dst)), path) == FileAt(Some(src), path)
                 && FileAt(MergedSrc(src, dst), path).None?
    decreases |path|
  {
    var n, s, d := path[0], src.children, dst.children;
    LeftChild(src, dst, n);
    if n in d && s[n].Dir? && d[n].Dir? {
      SourceFilesKept(s[n], d[n], path[1..]);
    } else if n in d {
      assert Blocked(d[n], path[1..]);
    }
  }

  /** No destination file changes. */
  lemma {:induction false} DestinationFilesKept(src: Node, dst: Node, path: seq<string>)
    requires src.Dir? && dst.Dir? && FileAt(Some(dst), path).Some?
    ensures FileAt(Some(MergedDst(src, dst)), path) == FileAt(Some(dst), path)
    decreases |path|
  {
    var n, s, d := path[0], src.children, dst.children;
    if n in s && s[n].Dir? && d[n].Dir? {
      DestinationFilesKept(s[n], d[n], path[1..]);
    }
  }

  /** Nothing appears that was in neither tree. */
  lemma {:induction false} NothingInvented(src: Node, dst: Node, path: seq<string>)
    requires src.Dir? && dst.Dir?
    ensures FileAt(MergedSrc(src, dst), path).Some? ==> FileAt(MergedSrc(src, dst), path) == FileAt(Some(src), path)
    ensures FileAt(Some(MergedDst(src, dst)), path).Some? ==>
              || FileAt(Some(MergedDst(src, dst)), path) == FileAt(Some(dst), path)
              || FileAt(Some(MergedDst(src, dst)), path) == FileAt(Some(src), path)
    decreases |path|
  {
    if path != [] {
      var n, s, d := path[0], src.children, dst.children;
      LeftChild(src, dst, n);
      if n in s && n in d && s[n].Dir? && d[n].Dir? {
        NothingInvented(s[n], d[n], path[1..]);
      }
    }
  }

  /** Every source file is accounted for by one report: below a moved path, or at or below a skipped one. */
  lemma {:induction false} EveryFileReported(src: Node, dst: Node, path: seq<string>)
    requires src.Dir? && dst.Dir? && FileAt(Some(src), path).Some?
    ensures Blocked(dst, path) <==> exists k :: 0 < k <= |path| && SkippedAt(src, dst, path[..k])
    ensures !Blocked(dst, path) <==> exists k :: 0 < k <= |path| && MovedAt(src, dst, path[..k])
    decreases |path|
  {
    var n := path[0];
    assert forall k :: 0 < k <= |path| ==> path[..k][1..] == path[1..][..k - 1] && path[..k][0] == n;
    if n !in dst.children || !src.children[n].Dir? || !dst.children[n].Dir? {
      assert path[..1] == [n];
    } else {
      EveryFileReported(src.children[n], dst.children[n], path[1..]);
      if Blocked(dst, path) {
        var k :| 0 < k <= |path[1..]| && SkippedAt(src.children[n], dst.children[n], path[1..][..k]);
        assert SkippedAt(src, dst, path[..k + 1]);
      } else {
        var k :| 0 < k <= |path[1..]| && MovedAt(src.children[n], dst.children[n], path[1..][..k]);
        assert MovedAt(src, dst, path[..k + 1]);
      }
    }
  }

  /** A second run finds nothing to move: what is left is blocked everywhere. */
  lemma {:induction false} SecondRunMovesNothing(src: Node, dst: Node)
    requires src.Dir? && dst.Dir? && MergedSrc(src, dst).Some?
    ensures MergedSrc(src, dst).value.Dir?
    ensures MergedDst(MergedSrc(src, dst).value, MergedDst(src, dst)) == MergedDst(src, dst)
    ensures MergedSrc(MergedSrc(src, dst).value, MergedDst(src, dst)) == MergedSrc(src, dst)
    decreases src
  {
    var left, into := MergedSrc(src, dst).value, MergedDst(src, dst);
    LeftChild(src, dst, "");
    forall n | n in left.children
      ensures n in into.children
      ensures left.children[n].Dir? && into.children[n].Dir? ==>
                && MergedDst(left.children[n], into.children[n]) == into.children[n]
                && MergedSrc(left.children[n], into.children[n]) == Some(left.children[n])
    {
      LeftChild(src, dst, n);
      var s, d := src.children[n], dst.children[n];
      if s.Dir? && d.Dir? {
        SecondRunMovesNothing(s, d);
      }
    }
    assert MergedDst(left, into).children == into.children;
    var again := MergedSrc(left, into);
    assert left.children != map[];
    forall n | n in left.children
      ensures again.Some? && n in again.value.children && again.value.children[n] == left.children[n]
    {
      LeftChild(left, into, n);
    }
    LeftChild(left, into, "");
    forall n | again.Some? && n in again.value.children ensures n in left.children {
      LeftChild(left, into, n);
    }
    assert again.Some? by {
      var n :| n in left.children;
    }
    assert again.value.children == left.children;
  }
}

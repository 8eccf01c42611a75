/** Termination of include expansion and its cycle check, over a finite family of pipeline
    definitions that may include one another in any way.  The chain of including pipelines is passed
    down as one dotted string, which is split again for the check. */
module IncludeChain {
  import opened Wrappers

  type Name = string
  type Id = nat

  /** A definition, reduced to its name, whether it names an export, and the definitions its
      include steps refer to, in order. */
  datatype Def = Def(name: Name, exports: bool, includes: seq<Id>)
  type Family = map<Id, Def>

  datatype Error = Cycle(name: Name) | NoExports(name: Name)

  ghost predicate Closed(family: Family) {
    forall id, sub | id in family && sub in family[id].includes :: sub in family
  }

  // ---------------------------------------------------------------------------
  // The dotted chain
  // ---------------------------------------------------------------------------

  /** `str.split(".")` */
  function Split(s: string): (parts: seq<string>)
    ensures |parts| > 0
  {
    if s == "" then [""]
    else
      var parts := Split(s[1..]);
      if s[0] == '.' then [""] + parts else [[s[0]] + parts[0]] + parts[1..]
  }

  /** `_build_parent_chain`; no chain yet is the empty string, which the source treats alike. */
  function BuildParentChain(current: Name, parent: string): string {
    if current == "" then parent
    else if parent == "" then current
    else parent + "." + current
  }

  /** The names the check compares with. */
  function ChainNames(chain: string): seq<Name> {
    if chain == "" then [] else Split(chain)
  }

  /** The chain passed down after including these pipelines in turn. */
  function ChainOf(names: seq<Name>): string {
    if names == [] then "" else BuildParentChain(names[|names| - 1], ChainOf(names[..|names| - 1]))
  }

  lemma {:induction false} SplitUndotted(name: string)
    requires '.' !in name
    ensures Split(name) == [name]
  {
    if name != "" {
      assert name[0] in name && name == [name[0]] + name[1..];
      SplitUndotted(name[1..]);
    }
  }

  lemma OnePiece(name: string)
    requires '.' !in name
    ensures ChainNames(name) == if name == "" then [] else [name]
  {
    SplitUndotted(name);
  }

  lemma {:induction false} SplitAppend(a: string, b: string)
    ensures Split(a + "." + b) == Split(a) + Split(b)
  {
    var s := a + "." + b;
    if a == "" {
      assert s[1..] == b;
    } else {
      assert s[0] == a[0] && s[1..] == a[1..] + "." + b;
      SplitAppend(a[1..], b);
    }
  }

  lemma {:induction false} SplitHasNoDots(s: string)
    ensures forall part | part in Split(s) :: '.' !in part
  {
    if s != "" {
      SplitHasNoDots(s[1..]);
    }
  }

  /** One more pipeline appends the pieces of its name. */
  lemma {:induction false} ChainGrows(names: seq<Name>)
    requires names != []
    ensures ChainNames(ChainOf(names)) == ChainNames(ChainOf(names[..|names| - 1])) + ChainNames(names[|names| - 1])
  {
    var parent, current := ChainOf(names[..|names| - 1]), names[|names| - 1];
    if current != "" && parent != "" {
      SplitAppend(parent, current);
    }
  }

  /** Some pipeline on the way stops this name: it has the name among the pieces of its own. */
  ghost predicate Blocks(earlier: seq<Name>, name: Name) {
    '.' !in name && exists m | m in earlier :: m != "" && name in Split(m)
  }

  /** The verdict of the check for all names: a dotted name is never found, any other is found exactly
      when it is a piece of an earlier name that is not empty. */
  lemma {:induction false} CheckVerdict(names: seq<Name>, name: Name)
    ensures name in ChainNames(ChainOf(names)) <==> Blocks(names, name)
  {
    if names != [] {
      var front, last := names[..|names| - 1], names[|names| - 1];
      ChainGrows(names);
      CheckVerdict(front, name);
      SplitHasNoDots(last);
      assert names == front + [last];
    }
  }

  /** A name that splits into itself. */
  predicate Proper(name: Name) {
    name != "" && '.' !in name
  }

  lemma {:induction false} PiecesCount(names: seq<Name>)
    requires forall n | n in names :: '.' !in n
    ensures |ChainNames(ChainOf(names))| <= |names|
    ensures "" in names ==> |ChainNames(ChainOf(names))| < |names|
  {
    if names != [] {
      var front, last := names[..|names| - 1], names[|names| - 1];
      ChainGrows(names);
      assert names == front + [last] && last in names;
      PiecesCount(front);
      OnePiece(last);
    }
  }

  lemma {:induction false} ProperChain(names: seq<Name>)
    requires forall n | n in names :: Proper(n)
    ensures ChainNames(ChainOf(names)) == names
  {
    if names != [] {
      var front, last := names[..|names| - 1], names[|names| - 1];
      ChainGrows(names);
      assert names == front + [last] && last in names;
      ProperChain(front);
      OnePiece(last);
    }
  }

  lemma {:induction false} PiecesHaveNoDots(names: seq<Name>)
    ensures forall piece | piece in ChainNames(ChainOf(names)) :: '.' !in piece
  {
    if names != [] {
      ChainGrows(names);
      PiecesHaveNoDots(names[..|names| - 1]);
      SplitHasNoDots(names[|names| - 1]);
    }
  }

  /** Splitting the chain gives the names back exactly when none of them is empty or has a dot. */
  lemma ChainSplitsExactly(names: seq<Name>)
    ensures ChainNames(ChainOf(names)) == names <==> forall n | n in names :: Proper(n)
  {
    PiecesHaveNoDots(names);
    if forall n | n in names :: '.' !in n {
      PiecesCount(names);
      if forall n | n in names :: Proper(n) {
        ProperChain(names);
      }
    }
  }

  lemma ProperBlocks(earlier: seq<Name>, name: Name)
    requires forall n | n in earlier :: Proper(n)
    requires Proper(name)
    ensures Blocks(earlier, name) <==> name in earlier
  {
    CheckVerdict(earlier, name);
    ProperChain(earlier);
  }

  // ---------------------------------------------------------------------------
  // The recursion, cut off at some depth
  // ---------------------------------------------------------------------------

  datatype Outcome = Accepted | Rejected(error: Error) | Unfinished

  /** `expand_macros` on the steps of `root`, where `Unfinished` means that it went deeper. */
  function Expand(family: Family, depth: nat, root: Id, parent: string): Outcome
    requires Closed(family) && root in family
    decreases depth, 0
  {
    if depth == 0 then Unfinished
    else ExpandAll(family, depth - 1, family[root].includes, BuildParentChain(family[root].name, parent))
  }

  /** `_expand_include` on one include step after the other. */
  function ExpandAll(family: Family, depth: nat, includes: seq<Id>, chain: string): Outcome
    requires Closed(family) && forall sub | sub in includes :: sub in family
    decreases depth, |includes|
  {
    if includes == [] then Accepted
    else
      var sub := family[includes[0]];
      if sub.name in ChainNames(chain) then Rejected(Cycle(sub.name))
      else if !sub.exports then Rejected(NoExports(sub.name))
      else
        var inner := Expand(family, depth, includes[0], chain);
        if inner.Accepted? then ExpandAll(family, depth, includes[1..], chain) else inner
  }

  ghost predicate Ends(family: Family, root: Id)
    requires Closed(family) && root in family
  {
    exists depth :: Expand(family, depth, root, "") != Unfinished
  }

  ghost predicate Rejects(family: Family, root: Id)
    requires Closed(family) && root in family
  {
    exists depth :: Expand(family, depth, root, "").Rejected?
  }

  lemma {:induction false} DeeperIsSame(family: Family, depth: nat, more: nat, root: Id, parent: string)
    requires Closed(family) && root in family && depth <= more
    requires Expand(family, depth, root, parent) != Unfinished
    ensures Expand(family, more, root, parent) == Expand(family, depth, root, parent)
    decreases depth, 0
  {
    DeeperAllIsSame(family, depth - 1, more - 1, family[root].includes, BuildParentChain(family[root].name, parent));
  }

  lemma {:induction false} DeeperAllIsSame(family: Family, depth: nat, more: nat, includes: seq<Id>, chain: string)
    requires Closed(family) && depth <= more && forall sub | sub in includes :: sub in family
    requires ExpandAll(family, depth, includes, chain) != Unfinished
    ensures ExpandAll(family, more, includes, chain) == ExpandAll(family, depth, includes, chain)
    decreases depth, |includes|
  {
    if includes != [] {
      var sub := family[includes[0]];
      if sub.name !in ChainNames(chain) && sub.exports {
        DeeperIsSame(family, depth, more, includes[0], chain);
        if Expand(family, depth, includes[0], chain).Accepted? {
          DeeperAllIsSame(family, depth, more, includes[1..], chain);
        }
      }
    }
  }

  // ---------------------------------------------------------------------------
  // When it ends
  // ---------------------------------------------------------------------------

  /** No cycle of includes consists of improper names only: `rank` goes down wherever such a name is
      included. */
  ghost predicate Ranked(family: Family, rank: map<Id, nat>) {
    && (forall id | id in family :: id in rank)
    && forall id, sub | id in family && sub in family[id].includes && sub in family ::
         !Proper(family[sub].name) ==> rank[sub] < rank[id]
  }

  /** The proper names that are not on the chain. */
  ghost function Unused(family: Family, names: seq<Name>): set<Name> {
    (set id | id in family && Proper(family[id].name) :: family[id].name) - set n | n in names
  }

  lemma UnusedShrinks(family: Family, names: seq<Name>, sub: Id)
    requires sub in family && !Blocks(names, family[sub].name)
    ensures Proper(family[sub].name) ==> Unused(family, names + [family[sub].name]) < Unused(family, names)
    ensures !Proper(family[sub].name) ==> Unused(family, names + [family[sub].name]) == Unused(family, names)
  {
    var name := family[sub].name;
    if Proper(name) {
      SplitUndotted(name);
      assert name in Unused(family, names) && name !in Unused(family, names + [name]);
    }
  }

  lemma {:induction false} RankedEnds(family: Family, before: seq<Name>, root: Id, rank: map<Id, nat>)
    returns (depth: nat)
    requires Closed(family) && Ranked(family, rank) && root in family
    ensures Expand(family, depth, root, ChainOf(before)) != Unfinished
    decreases Unused(family, before + [family[root].name]), rank[root], |family[root].includes| + 1
  {
    var names := before + [family[root].name];
    assert names[..|names| - 1] == before;
    depth := AllEnd(family, names, root, family[root].includes, rank);
    depth := depth + 1;
  }

  lemma {:induction false} AllEnd(family: Family, names: seq<Name>, root: Id, includes: seq<Id>, rank: map<Id, nat>)
    returns (depth: nat)
    requires Closed(family) && Ranked(family, rank) && root in family
    requires forall sub | sub in includes :: sub in family[root].includes
    ensures ExpandAll(family, depth, includes, ChainOf(names)) != Unfinished
    decreases Unused(family, names), rank[root], |includes|
  {
    depth := 0;
    if includes != [] {
      var sub := includes[0];
      CheckVerdict(names, family[sub].name);
      if !Blocks(names, family[sub].name) && family[sub].exports {
        UnusedShrinks(family, names, sub);
        var first := RankedEnds(family, names, sub, rank);
        var others := AllEnd(family, names, root, includes[1..], rank);
        depth := if first > others then first else others;
        DeeperIsSame(family, first, depth, sub, ChainOf(names));
        DeeperAllIsSame(family, others, depth, includes[1..], ChainOf(names));
      }
    }
  }

  // ---------------------------------------------------------------------------
  // What it says when it ends
  // ---------------------------------------------------------------------------

  /** A chain of includes starting at the definition `root`. */
  ghost predicate IsChain(family: Family, root: Id, path: seq<Id>) {
    && |path| > 0 && path[0] == root
    && (forall i :: 0 <= i < |path| ==> path[i] in family)
    && forall i :: 0 <= i < |path| - 1 ==> path[i + 1] in family[path[i]].includes
  }

  function NamesAlong(family: Family, path: seq<Id>): (names: seq<Name>)
    requires forall i :: 0 <= i < |path| ==> path[i] in family
    ensures |names| == |path| && forall i :: 0 <= i < |path| ==> names[i] == family[path[i]].name
  {
    if path == [] then [] else [family[path[0]].name] + NamesAlong(family, path[1..])
  }

  /** The last include of the chain is refused with this error; `before` are the names that led to
      the start of the chain. */
  ghost predicate Offends(family: Family, before: seq<Name>, root: Id, path: seq<Id>, error: Error) {
    && IsChain(family, root, path) && |path| >= 2
    && var last := family[path[|path| - 1]];
       var repeats := Blocks(before + NamesAlong(family, path[..|path| - 1]), last.name);
       match error
       case Cycle(name) => name == last.name && repeats
       case NoExports(name) => name == last.name && !last.exports && !repeats
  }

  /** The first of the includes that is a or b is a. */
  ghost predicate ListedBefore(includes: seq<Id>, a: Id, b: Id) {
    exists i :: 0 <= i < |includes| && includes[i] == a && b !in includes[..i + 1]
  }

  /** Expansion comes to the end of chain q before that of chain p. */
  ghost predicate Earlier(family: Family, q: seq<Id>, p: seq<Id>)
    decreases |q|
  {
    && q != [] && p != [] && q[0] == p[0] && q[0] in family && |p| > 1
    && if |q| == 1 then true
       else if q[1] == p[1] then Earlier(family, q[1..], p[1..])
       else ListedBefore(family[q[0]].includes, q[1], p[1])
  }

  /** No chain that expansion comes to before this one offends. */
  ghost predicate OffendsFirst(family: Family, before: seq<Name>, root: Id, path: seq<Id>, error: Error) {
    && Offends(family, before, root, path, error)
    && forall q, e | Offends(family, before, root, q, e) :: !Earlier(family, q, path)
  }

  lemma OffendsLater(family: Family, before: seq<Name>, root: Id, sub: Id, rest: seq<Id>, error: Error)
    requires root in family && sub in family[root].includes && IsChain(family, sub, rest)
    ensures IsChain(family, root, [root] + rest)
    ensures |rest| >= 2 ==>
      (Offends(family, before, root, [root] + rest, error)
       <==> Offends(family, before + [family[root].name], sub, rest, error))
  {
    var path, front := [root] + rest, rest[..|rest| - 1];
    assert path[..|path| - 1] == [root] + front && path[|path| - 1] == rest[|rest| - 1];
  }

  lemma OffendsNow(family: Family, before: seq<Name>, root: Id, sub: Id, error: Error)
    requires Closed(family) && root in family && sub in family[root].includes
    ensures Offends(family, before, root, [root, sub], error) <==>
            (error == Cycle(family[sub].name) && Blocks(before + [family[root].name], family[sub].name))
            || (error == NoExports(family[sub].name) && !family[sub].exports
                && !Blocks(before + [family[root].name], family[sub].name))
  {
    assert [root, sub][..1] == [root] && NamesAlong(family, [root]) == [family[root].name];
  }

  /** Neither this include nor anything below it is refused. */
  ghost predicate Clear(family: Family, before: seq<Name>, root: Id, sub: Id)
    requires root in family
  {
    && (forall e :: !Offends(family, before, root, [root, sub], e))
    && forall rest, e :: !Offends(family, before + [family[root].name], sub, rest, e)
  }

  /** A chain has one include, or goes on after it. */
  lemma OffendsSplits(family: Family, before: seq<Name>, root: Id, path: seq<Id>, error: Error)
    requires Offends(family, before, root, path, error)
    ensures path[1] in family[root].includes
    ensures !Clear(family, before, root, path[1])
  {
    var rest := path[1..];
    assert path == [root] + rest && path[0 + 1] in family[path[0]].includes;
    forall i | 0 <= i < |rest| - 1 ensures rest[i + 1] in family[rest[i]].includes {
      assert path[i + 1 + 1] in family[path[i + 1]].includes;
    }
    if |rest| >= 2 {
      OffendsLater(family, before, root, path[1], rest, error);
    } else {
      assert path == [root, path[1]];
    }
  }

  lemma ListedAmongDone(includes: seq<Id>, done: seq<Id>, sub: Id, a: Id)
    requires done + [sub] <= includes && ListedBefore(includes, a, sub)
    ensures a in done
  {
    var i :| 0 <= i < |includes| && includes[i] == a && sub !in includes[..i + 1];
    assert includes[|done|] == (done + [sub])[|done|] == sub;
    assert forall k :: 0 <= k < i + 1 ==> includes[k] in includes[..i + 1];
    assert i < |done|;
    assert done[i] == (done + [sub])[i];
  }

  /** What comes below an include that offends nowhere earlier comes first. */
  lemma FirstBelow(family: Family, before: seq<Name>, root: Id, done: seq<Id>, rest: seq<Id>, error: Error)
    requires Closed(family) && root in family && rest != []
    requires done + [rest[0]] <= family[root].includes && forall sub | sub in done :: Clear(family, before, root, sub)
    requires if |rest| == 1 then Offends(family, before, root, [root, rest[0]], error)
             else OffendsFirst(family, before + [family[root].name], rest[0], rest, error)
                  && forall e :: !Offends(family, before, root, [root, rest[0]], e)
    ensures OffendsFirst(family, before, root, [root] + rest, error)
  {
    var path := [root] + rest;
    assert path == if |rest| == 1 then [root, rest[0]] else path;
    assert family[root].includes[|done|] == (done + [rest[0]])[|done|];
    if |rest| > 1 { OffendsLater(family, before, root, rest[0], rest, error); }
    forall q, e | Offends(family, before, root, q, e) ensures !Earlier(family, q, path) {
      OffendsSplits(family, before, root, q, e);
      if q[1] == rest[0] {
        BelowTheSame(family, before, root, q, e, rest, error);
      } else if ListedBefore(family[root].includes, q[1], rest[0]) {
        ListedAmongDone(family[root].includes, done, rest[0], q[1]);
      }
    }
  }

  lemma TailIsChain(family: Family, root: Id, q: seq<Id>)
    requires IsChain(family, root, q) && |q| >= 2
    ensures q == [root] + q[1..] && q[1] in family[root].includes && IsChain(family, q[1], q[1..])
  {
    var below := q[1..];
    assert q[0 + 1] in family[q[0]].includes;
    forall i | 0 <= i < |below| - 1 ensures below[i + 1] in family[below[i]].includes {
      assert q[i + 1 + 1] in family[q[i + 1]].includes;
    }
  }

  lemma BelowTheSame(family: Family, before: seq<Name>, root: Id, q: seq<Id>, e: Error, rest: seq<Id>, error: Error)
    requires root in family && Offends(family, before, root, q, e) && rest != [] && q[1] == rest[0]
    requires |rest| > 1 ==> OffendsFirst(family, before + [family[root].name], rest[0], rest, error)
                            && forall e :: !Offends(family, before, root, [root, rest[0]], e)
    ensures !Earlier(family, q, [root] + rest)
  {
    TailIsChain(family, root, q);
    var path, below := [root] + rest, q[1..];
    assert path[1..] == rest;
    assert |below| == 1 ==> q == [root, rest[0]];
    if |rest| > 1 && |below| > 1 {
      OffendsLater(family, before, root, q[1], below, e);
      assert !Earlier(family, below, rest);
    }
  }

  /** Acceptance means that no chain of includes offends; a rejection comes with the first one that does. */
  lemma {:induction false} VerdictIsRight(family: Family, depth: nat, before: seq<Name>, root: Id)
    requires Closed(family) && root in family
    ensures Expand(family, depth, root, ChainOf(before)).Accepted? ==>
              forall path, e :: !Offends(family, before, root, path, e)
    ensures Expand(family, depth, root, ChainOf(before)).Rejected? ==>
              exists path :: OffendsFirst(family, before, root, path, Expand(family, depth, root, ChainOf(before)).error)
    decreases depth, 0
  {
    if depth > 0 {
      var names := before + [family[root].name];
      assert names[..|names| - 1] == before;
      AllVerdictsAreRight(family, depth - 1, before, root, [], family[root].includes);
      if Expand(family, depth, root, ChainOf(before)).Accepted? {
        forall path, e ensures !Offends(family, before, root, path, e) {
          if Offends(family, before, root, path, e) {
            OffendsSplits(family, before, root, path, e);
          }
        }
      }
    }
  }

  lemma {:induction false} AllVerdictsAreRight(family: Family, depth: nat, before: seq<Name>, root: Id,
                                               done: seq<Id>, includes: seq<Id>)
    requires Closed(family) && root in family && family[root].includes == done + includes
    requires forall sub | sub in done :: Clear(family, before, root, sub)
    ensures var names := before + [family[root].name];
      && (ExpandAll(family, depth, includes, ChainOf(names)).Accepted? ==>
            forall sub | sub in includes :: Clear(family, before, root, sub))
      && (ExpandAll(family, depth, includes, ChainOf(names)).Rejected? ==> exists path ::
            OffendsFirst(family, before, root, path, ExpandAll(family, depth, includes, ChainOf(names)).error))
    decreases depth, |includes|
  {
    if includes != [] {
      var names, sub := before + [family[root].name], includes[0];
      var outcome := ExpandAll(family, depth, includes, ChainOf(names));
      assert (done + includes)[|done|] == sub && done + [sub] <= done + includes;
      CheckVerdict(names, family[sub].name);
      if Blocks(names, family[sub].name) || !family[sub].exports {
        OffendsNow(family, before, root, sub, outcome.error);
        FirstBelow(family, before, root, done, [sub], outcome.error);
      } else {
        PassedHere(family, before, root, sub);
        VerdictIsRight(family, depth, names, sub);
        var inner := Expand(family, depth, sub, ChainOf(names));
        if inner.Rejected? {
          var rest :| OffendsFirst(family, names, sub, rest, inner.error);
          FirstBelow(family, before, root, done, rest, inner.error);
        } else if inner.Accepted? {
          assert Clear(family, before, root, sub);
          assert done + includes == (done + [sub]) + includes[1..] && includes == [sub] + includes[1..];
          AllVerdictsAreRight(family, depth, before, root, done + [sub], includes[1..]);
        }
      }
    }
  }

  lemma PassedHere(family: Family, before: seq<Name>, root: Id, sub: Id)
    requires Closed(family) && root in family && sub in family[root].includes && family[sub].exports
    requires !Blocks(before + [family[root].name], family[sub].name)
    ensures forall e :: !Offends(family, before, root, [root, sub], e)
  {
    forall e ensures !Offends(family, before, root, [root, sub], e) {
      OffendsNow(family, before, root, sub, e);
    }
  }

  // ---------------------------------------------------------------------------
  // The recursion itself
  // ---------------------------------------------------------------------------

  /** `expand_macros` with its validation.  Wherever the recursion ends, at whatever depth, it comes to
      the specified outcome. */
  method ExpandIncludes(family: Family, root: Id, parent: string, ghost depth: nat) returns (error: Option<Error>)
    requires Closed(family) && root in family && Expand(family, depth, root, parent) != Unfinished
    ensures Expand(family, depth, root, parent) == if error.None? then Accepted else Rejected(error.value)
    decreases depth
  {
    var includes, chain := family[root].includes, BuildParentChain(family[root].name, parent);
    for i := 0 to |includes|
      invariant ExpandAll(family, depth - 1, includes[i..], chain) == Expand(family, depth, root, parent)
    {
      var sub := family[includes[i]];
      assert includes[i..][0] == includes[i] && includes[i..][1..] == includes[i + 1..];
      if sub.name in ChainNames(chain) {
        return Some(Cycle(sub.name));
      }
      if !sub.exports {
        return Some(NoExports(sub.name));
      }
      error := ExpandIncludes(family, includes[i], chain, depth - 1);
      if error.Some? { return; }
    }
    error := None;
  }

  /** Expanding a root pipeline.  If no cycle of includes consists of improper names only, it ends, and
      it is rejected exactly when some chain of includes offends, with the error of the first one. */
  method ExpandRoot(family: Family, root: Id, ghost rank: map<Id, nat>) returns (error: Option<Error>)
    requires Closed(family) && root in family && Ranked(family, rank)
    ensures Ends(family, root) && (Rejects(family, root) <==> error.Some?)
    ensures error.None? <==> forall path, e :: !Offends(family, [], root, path, e)
    ensures error.Some? ==> exists path :: OffendsFirst(family, [], root, path, error.value)
  {
    ghost var depth := RankedEnds(family, [], root, rank);
    VerdictIsRight(family, depth, [], root);
    error := ExpandIncludes(family, root, "", depth);
    RejectsOnce(family, root, depth);
  }

  lemma RejectsOnce(family: Family, root: Id, depth: nat)
    requires Closed(family) && root in family && Expand(family, depth, root, "") != Unfinished
    ensures Rejects(family, root) <==> Expand(family, depth, root, "").Rejected?
  {
    if other: nat :| Expand(family, other, root, "").Rejected? {
      DeeperIsSame(family, other, if other < depth then depth else other, root, "");
      DeeperIsSame(family, depth, if other < depth then depth else other, root, "");
    }
  }

  // ---------------------------------------------------------------------------
  // Which names make the check right
  // ---------------------------------------------------------------------------

  predicate Distinct(names: seq<Name>) {
    forall i, j :: 0 <= i < j < |names| ==> names[i] != names[j]
  }

  /** Some chain of includes comes to a name twice. */
  ghost predicate Repeats(family: Family, root: Id) {
    exists path :: IsChain(family, root, path) && !Distinct(NamesAlong(family, path))
  }

  ghost predicate AllExport(family: Family) {
    forall id | id in family :: family[id].exports
  }

  ghost predicate AllProper(family: Family) {
    forall id | id in family :: Proper(family[id].name)
  }

  /** The recursion ends, and if all definitions export it is rejected exactly when a name repeats. */
  ghost predicate Works(family: Family, root: Id)
    requires Closed(family) && root in family
  {
    Ends(family, root) && (AllExport(family) ==> (Rejects(family, root) <==> Repeats(family, root)))
  }

  /** On proper names a chain offends as a cycle exactly when its last name came before. */
  lemma {:induction false} LastNameRepeats(family: Family, root: Id, path: seq<Id>)
    requires AllProper(family) && IsChain(family, root, path) && |path| >= 2
    ensures var names := NamesAlong(family, path);
      Offends(family, [], root, path, Cycle(names[|names| - 1])) <==> names[|names| - 1] in names[..|names| - 1]
  {
    var names, front := NamesAlong(family, path), path[..|path| - 1];
    assert [] + NamesAlong(family, front) == names[..|front|];
    assert names[|front|] in names;
    ProperBlocks(names[..|front|], names[|front|]);
  }

  lemma {:induction false} OffendingRepeats(family: Family, root: Id, path: seq<Id>, e: Error)
    requires AllProper(family) && AllExport(family) && Offends(family, [], root, path, e)
    ensures !Distinct(NamesAlong(family, path))
  {
    var names := NamesAlong(family, path);
    assert path[|path| - 1] in family;
    assert e == Cycle(names[|names| - 1]);
    LastNameRepeats(family, root, path);
  }

  lemma RepeatOffendsAt(family: Family, root: Id, path: seq<Id>, i: nat, j: nat)
    requires AllProper(family) && IsChain(family, root, path) && i < j < |path|
    requires family[path[i]].name == family[path[j]].name
    ensures Offends(family, [], root, path[..j + 1], Cycle(family[path[j]].name))
  {
    var names := NamesAlong(family, path[..j + 1]);
    assert names[j] == family[path[j]].name && names[..j][i] == family[path[i]].name;
    LastNameRepeats(family, root, path[..j + 1]);
  }

  lemma Twice(names: seq<Name>) returns (i: nat, j: nat)
    requires !Distinct(names)
    ensures i < j < |names| && names[i] == names[j]
  {
    i, j :| i < j < |names| && names[i] == names[j];
  }

  lemma RepeatOffends(family: Family, root: Id, path: seq<Id>)
    requires AllProper(family) && IsChain(family, root, path) && !Distinct(NamesAlong(family, path))
    ensures exists p, e :: Offends(family, [], root, p, e)
  {
    var i, j := Twice(NamesAlong(family, path));
    RepeatOffendsAt(family, root, path, i, j);
  }

  /** With names that are neither empty nor dotted, expansion works for every finite family, mutually
      including definitions too. */
  lemma ProperNamesWork(family: Family, root: Id)
    requires Closed(family) && root in family && AllProper(family)
    ensures Works(family, root)
  {
    var rank := map id | id in family :: 0;
    var depth := RankedEnds(family, [], root, rank);
    VerdictIsRight(family, depth, [], root);
    RejectsOnce(family, root, depth);
    if AllExport(family) {
      if Rejects(family, root) {
        var path :| Offends(family, [], root, path, Expand(family, depth, root, "").error);
        OffendingRepeats(family, root, path, Expand(family, depth, root, "").error);
      }
      if Repeats(family, root) {
        var path :| IsChain(family, root, path) && !Distinct(NamesAlong(family, path));
        RepeatOffends(family, root, path);
      }
    }
  }

  /** One definition that includes itself. */
  function SelfIncluding(name: Name): Family {
    map[0 := Def(name, true, [0])]
  }

  lemma {:induction false} NeverDeepEnough(name: Name, depth: nat, before: seq<Name>)
    requires !Proper(name) && forall n | n in before :: n == name
    ensures Expand(SelfIncluding(name), depth, 0, ChainOf(before)) == Unfinished
  {
    if depth > 0 {
      var names := before + [name];
      assert names[..|names| - 1] == before;
      CheckVerdict(names, name);
      assert !Blocks(names, name);
      NeverDeepEnough(name, depth - 1, names);
    }
  }

  /** A pipeline with an empty or dotted name that includes itself is never refused: the recursion goes
      on for ever. */
  lemma ImproperNameNeverEnds(name: Name)
    requires !Proper(name)
    ensures Closed(SelfIncluding(name)) && !Ends(SelfIncluding(name), 0) && Repeats(SelfIncluding(name), 0)
  {
    var family := SelfIncluding(name);
    forall depth: nat ensures Expand(family, depth, 0, "") == Unfinished {
      NeverDeepEnough(name, depth, []);
    }
    var names := NamesAlong(family, [0, 0]);
    assert IsChain(family, 0, [0, 0]) && names[0] == names[1];
  }

  ghost predicate NamedIn(family: Family, names: set<Name>) {
    forall id | id in family :: family[id].name in names
  }

  /** Expansion works for all finite families with these names if and only if every one of them is
      non-empty and without a dot. */
  lemma ExpansionWorksExactly(names: set<Name>)
    ensures (forall family, root | Closed(family) && root in family && NamedIn(family, names) :: Works(family, root))
       <==> (forall n | n in names :: Proper(n))
  {
    if forall n | n in names :: Proper(n) {
      forall family, root | Closed(family) && root in family && NamedIn(family, names) ensures Works(family, root) {
        ProperNamesWork(family, root);
      }
    } else {
      var n :| n in names && !Proper(n);
      ImproperNameNeverEnds(n);
      assert NamedIn(SelfIncluding(n), names) && !Works(SelfIncluding(n), 0);
    }
  }

  /** One definition that includes another. */
  function Including(whole: Name, piece: Name): Family {
    map[0 := Def(whole, true, [1]), 1 := Def(piece, true, [])]
  }

  /** A dotted name also blocks all its pieces, such as "b" below "a.b", though no name repeats. */
  lemma DottedNameBlocksItsPieces(whole: Name, piece: Name)
    requires '.' in whole && piece in Split(whole)
    ensures Closed(Including(whole, piece)) && Rejects(Including(whole, piece), 0) && !Repeats(Including(whole, piece), 0)
  {
    var family := Including(whole, piece);
    SplitHasNoDots(whole);
    assert BuildParentChain(whole, "") == whole;
    assert Expand(family, 1, 0, "") == ExpandAll(family, 0, [1], whole);
    assert ExpandAll(family, 0, [1], whole) == Rejected(Cycle(piece));
    forall path | IsChain(family, 0, path) ensures Distinct(NamesAlong(family, path)) {
      OneStepOnly(whole, piece, path);
    }
  }

  lemma NextIsIncluded(family: Family, root: Id, path: seq<Id>, i: nat)
    requires IsChain(family, root, path) && i + 1 < |path|
    ensures path[i] in family && path[i + 1] in family[path[i]].includes
  {
  }

  lemma OneStepOnly(whole: Name, piece: Name, path: seq<Id>)
    requires IsChain(Including(whole, piece), 0, path)
    ensures |path| <= 2 && forall i :: 0 <= i < |path| ==> path[i] == i
  {
    if |path| >= 2 { NextIsIncluded(Including(whole, piece), 0, path, 0); }
    if |path| >= 3 { NextIsIncluded(Including(whole, piece), 0, path, 1); }
  }
}

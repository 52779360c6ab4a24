/** The release check that the migration history has a single head: what it reads
    from each migration's syntax tree, and why one head means one history. */
module AlembicHeads {
  import opened Tables

  type Id = string

  // ── What a migration file says ─────────────────────────────────────────────

  /** The expressions the reader tells apart. */
  datatype Expr = Text(value: Id) | Constant | Group(elements: seq<Expr>) | Other

  datatype Name = Revision | DownRevision | OtherName(text: string)

  /** A module-level assignment, plain or annotated; only names among its targets count. */
  datatype Assign = Assign(names: seq<Name>, value: Expr)

  /** None: the source does not parse. */
  type Source = Option<seq<Assign>>

  datatype Migration = Migration(revision: Option<Id>, downs: seq<Id>)

  function Strings(e: Expr): seq<Id> {
    match e
    case Text(value) => [value]
    case Group(elements) => StringsOf(elements)
    case _ => []
  }

  function StringsOf(es: seq<Expr>): seq<Id> {
    if |es| == 0 then [] else StringsOf(es[..|es| - 1]) + Strings(es[|es| - 1])
  }

  /** Strings are the texts of the tree, left to right, at any depth. */
  predicate Mentions(e: Expr, id: Id) {
    match e
    case Text(value) => value == id
    case Group(elements) => exists k :: 0 <= k < |elements| && Mentions(elements[k], id)
    case _ => false
  }

  lemma {:induction false} StringsAreMentioned(e: Expr, id: Id)
    ensures id in Strings(e) <==> Mentions(e, id)
    decreases e, if e.Group? then |e.elements| + 1 else 0
  {
    if e.Group? { AllMentioned(e, e.elements, id); }
  }

  lemma {:induction false} AllMentioned(e: Expr, es: seq<Expr>, id: Id)
    requires e.Group? && es <= e.elements
    ensures id in StringsOf(es) <==> exists k :: 0 <= k < |es| && Mentions(es[k], id)
    decreases e, |es|
  {
    if |es| > 0 {
      var n := |es| - 1;
      AllMentioned(e, es[..n], id);
      assert es[n] == e.elements[n];
      StringsAreMentioned(es[n], id);
      if id in StringsOf(es[..n]) {
        var k :| 0 <= k < n && Mentions(es[..n][k], id);
        assert Mentions(es[k], id);
      }
    }
  }

  /** The value a name ends up with: the last assignment wins. */
  function ValueOf(assigns: seq<Assign>, name: Name): Option<Expr> {
    if |assigns| == 0 then None
    else if name in assigns[|assigns| - 1].names then Some(assigns[|assigns| - 1].value)
    else ValueOf(assigns[..|assigns| - 1], name)
  }

  function StringsIn(e: Option<Expr>): seq<Id> { if e.None? then [] else Strings(e.value) }

  function RevisionIds(source: Source): Migration {
    if source.None? then Migration(None, [])
    else
      var revisions := StringsIn(ValueOf(source.value, Revision));
      Migration(if revisions == [] then None else Some(revisions[0]), StringsIn(ValueOf(source.value, DownRevision)))
  }

  lemma {:induction false} LastAssignmentWins(assigns: seq<Assign>, name: Name, k: nat)
    requires k < |assigns| && name in assigns[k].names
    requires forall j :: k < j < |assigns| ==> name !in assigns[j].names
    ensures ValueOf(assigns, name) == Some(assigns[k].value)
  {
    if k < |assigns| - 1 { LastAssignmentWins(assigns[..|assigns| - 1], name, k); }
  }

  /** A list of revision ids, as a merge migration writes it. */
  function Texts(ids: seq<Id>): (es: seq<Expr>)
    ensures |es| == |ids| && forall k :: 0 <= k < |es| ==> es[k] == Text(ids[k])
  {
    seq(|ids|, k requires 0 <= k < |ids| => Text(ids[k]))
  }

  lemma {:induction false} TextsAreRead(ids: seq<Id>)
    ensures StringsOf(Texts(ids)) == ids
  {
    if |ids| > 0 {
      TextsAreRead(ids[..|ids| - 1]);
      assert Texts(ids)[..|ids| - 1] == Texts(ids[..|ids| - 1]);
    }
  }

  /** What a migration file says is what is read: its last revision id, and as down
      revisions none, the one or the several it last names, in their order. */
  lemma FilesAreReadAsWritten(assigns: seq<Assign>, r: nat, d: nat, id: Id, downs: seq<Id>)
    requires r < |assigns| && Revision in assigns[r].names && assigns[r].value == Text(id)
    requires forall j :: r < j < |assigns| ==> Revision !in assigns[j].names
    requires d < |assigns| && DownRevision in assigns[d].names
    requires forall j :: d < j < |assigns| ==> DownRevision !in assigns[j].names
    requires || (assigns[d].value == Constant && downs == [])
             || (|downs| == 1 && assigns[d].value == Text(downs[0]))
             || assigns[d].value == Group(Texts(downs))
    ensures RevisionIds(Some(assigns)) == Migration(Some(id), downs)
  {
    LastAssignmentWins(assigns, Revision, r);
    LastAssignmentWins(assigns, DownRevision, d);
    TextsAreRead(downs);
  }

  lemma {:induction false} NeverAssigned(assigns: seq<Assign>, name: Name)
    requires forall k :: 0 <= k < |assigns| ==> name !in assigns[k].names
    ensures ValueOf(assigns, name) == None
  {
    if |assigns| > 0 { NeverAssigned(assigns[..|assigns| - 1], name); }
  }

  /** A file that does not parse, or never names its revision, has none. */
  lemma NoRevisionToRead(source: Source)
    requires source.None? || forall k :: 0 <= k < |source.value| ==> Revision !in source.value[k].names
    ensures RevisionIds(source).revision.None?
  {
    if source.Some? { NeverAssigned(source.value, Revision); }
  }

  // ── The graph ──────────────────────────────────────────────────────────────

  ghost predicate IsRevision(ms: seq<Migration>, id: Id) { exists k :: 0 <= k < |ms| && ms[k].revision == Some(id) }

  /** Some migration builds directly on id. */
  predicate HasChild(ms: seq<Migration>, id: Id) { exists k :: 0 <= k < |ms| && id in ms[k].downs }

  ghost predicate IsHead(ms: seq<Migration>, id: Id) { IsRevision(ms, id) && !HasChild(ms, id) }

  ghost predicate OnlyHead(ms: seq<Migration>, head: Id) { forall id :: IsHead(ms, id) <==> id == head }

  predicate AllRead(ms: seq<Migration>) { forall k :: 0 <= k < |ms| ==> ms[k].revision.Some? }

  /** The child lists the parent as a down revision. */
  predicate Edge(ms: seq<Migration>, parent: Id, child: Id) {
    exists k :: 0 <= k < |ms| && ms[k].revision == Some(child) && parent in ms[k].downs
  }

  /** A line of descent, each revision built directly on the one before. */
  predicate Descent(ms: seq<Migration>, path: seq<Id>) { forall i :: 0 < i < |path| ==> Edge(ms, path[i - 1], path[i]) }

  /** An ancestor, or the revision itself. */
  ghost predicate LeadsTo(ms: seq<Migration>, a: Id, b: Id) {
    exists path: seq<Id> :: |path| > 0 && path[0] == a && path[|path| - 1] == b && Descent(ms, path)
  }

  /** No revision leads to itself by one or more edges. */
  ghost predicate Acyclic(ms: seq<Migration>) {
    forall path: seq<Id> :: |path| > 1 && Descent(ms, path) ==> path[0] != path[|path| - 1]
  }

  function Revisions(ms: seq<Migration>): set<Id> {
    set k | 0 <= k < |ms| && ms[k].revision.Some? :: ms[k].revision.value
  }

  lemma {:induction false} DistinctFit(path: seq<Id>, ids: set<Id>)
    requires forall i, j :: 0 <= i < j < |path| ==> path[i] != path[j]
    requires forall i :: 0 <= i < |path| ==> path[i] in ids
    ensures |path| <= |ids|
  {
    if |path| > 0 {
      DistinctFit(path[..|path| - 1], ids - {path[|path| - 1]});
    }
  }

  /** Without cycles a line of descent never repeats itself, so it is no longer than
      the history. */
  lemma DescentsAreShort(ms: seq<Migration>, path: seq<Id>)
    requires Acyclic(ms) && Descent(ms, path) && forall i :: 0 <= i < |path| ==> IsRevision(ms, path[i])
    ensures |path| <= |Revisions(ms)|
  {
    forall i, j | 0 <= i < j < |path| ensures path[i] != path[j] {
      var part := path[i..j + 1];
      forall k | 0 < k < |part|
        ensures Edge(ms, part[k - 1], part[k])
      {
        assert Edge(ms, path[i + k - 1], path[i + k]);
      }
      assert Descent(ms, part) && part[0] == path[i] && part[|part| - 1] == path[j];
    }
    DistinctFit(path, Revisions(ms));
  }

  /** Following children upwards must end, and it can only end in the one head. */
  lemma {:induction false} ClimbToHead(ms: seq<Migration>, path: seq<Id>, head: Id)
    requires AllRead(ms) && Acyclic(ms) && |path| > 0 && Descent(ms, path)
    requires forall i :: 0 <= i < |path| ==> IsRevision(ms, path[i])
    requires forall x :: IsHead(ms, x) ==> x == head
    ensures LeadsTo(ms, path[0], head)
    decreases |Revisions(ms)| - |path|
  {
    var last := path[|path| - 1];
    if HasChild(ms, last) {
      var k :| 0 <= k < |ms| && last in ms[k].downs;
      var child := ms[k].revision.value;
      assert Edge(ms, last, child) && IsRevision(ms, child);
      var longer := path + [child];
      forall i | 0 < i < |longer| ensures Edge(ms, longer[i - 1], longer[i]) {
        if i < |path| { assert Edge(ms, path[i - 1], path[i]); }
      }
      DescentsAreShort(ms, longer);
      ClimbToHead(ms, longer, head);
    } else {
      assert IsHead(ms, last);
    }
  }

  lemma Longer(ms: seq<Migration>, id: Id, path: seq<Id>)
    requires |path| > 0 && Edge(ms, id, path[0]) && Descent(ms, path)
    ensures Descent(ms, [id] + path)
  {
    var longer := [id] + path;
    forall i | 0 < i < |longer| ensures Edge(ms, longer[i - 1], longer[i]) {
      if i > 1 { assert Edge(ms, path[i - 2], path[i - 1]); }
    }
  }

  lemma NotAHead(ms: seq<Migration>, id: Id, head: Id)
    requires LeadsTo(ms, id, head) && id != head
    ensures HasChild(ms, id)
  {
    var path :| |path| > 0 && path[0] == id && path[|path| - 1] == head && Descent(ms, path);
    assert Edge(ms, path[0], path[1]);
  }

  lemma NothingAbove(ms: seq<Migration>, head: Id)
    requires AllRead(ms) && Acyclic(ms) && forall id :: IsRevision(ms, id) ==> LeadsTo(ms, id, head)
    ensures !HasChild(ms, head)
  {
    if HasChild(ms, head) {
      var k :| 0 <= k < |ms| && head in ms[k].downs;
      var child := ms[k].revision.value;
      assert Edge(ms, head, child) && IsRevision(ms, child);
      var path :| |path| > 0 && path[0] == child && path[|path| - 1] == head && Descent(ms, path);
      Longer(ms, head, path);
    }
  }

  /** Single head means one history: in an acyclic graph, merges included, a revision
      is the only head exactly when every revision leads to it. */
  lemma OneHeadExactlyWhenOneHistory(ms: seq<Migration>, head: Id)
    requires AllRead(ms) && Acyclic(ms) && IsRevision(ms, head)
    ensures OnlyHead(ms, head) <==> forall id :: IsRevision(ms, id) ==> LeadsTo(ms, id, head)
  {
    if OnlyHead(ms, head) {
      forall id | IsRevision(ms, id) ensures LeadsTo(ms, id, head) {
        ClimbToHead(ms, [id], head);
      }
    }
    if forall id :: IsRevision(ms, id) ==> LeadsTo(ms, id, head) {
      NothingAbove(ms, head);
      forall id ensures IsHead(ms, id) <==> id == head {
        if IsRevision(ms, id) && id != head { NotAHead(ms, id, head); }
      }
    }
  }

  // ── The check ──────────────────────────────────────────────────────────────

  datatype Result = Pass(head: Id, count: nat) | NoFiles | Unparsed(files: seq<nat>) | Diverged(heads: seq<Id>)

  function Read(sources: seq<Source>): (ms: seq<Migration>)
    ensures |ms| == |sources| && forall k :: 0 <= k < |ms| ==> ms[k] == RevisionIds(sources[k])
  {
    seq(|sources|, k requires 0 <= k < |sources| => RevisionIds(sources[k]))
  }

  /** The files no revision id could be read from, in order. */
  ghost predicate Unreadable(ms: seq<Migration>, n: nat, files: seq<nat>)
    requires n <= |ms|
  {
    && (forall k: nat :: k in files <==> k < n && ms[k].revision.None?)
    && forall i, j :: 0 <= i < j < |files| ==> files[i] < files[j]
  }

  lemma NotOne(ms: seq<Migration>, heads: seq<Id>)
    requires |heads| != 1 && forall id :: IsHead(ms, id) <==> id in heads
    requires forall j, k :: 0 <= j < k < |heads| ==> heads[j] != heads[k]
    ensures !exists h :: OnlyHead(ms, h)
  {
    forall h ensures !OnlyHead(ms, h) {
      if heads == [] {
        assert !IsHead(ms, h);
      } else {
        var other := if heads[0] == h then heads[1] else heads[0];
        assert IsHead(ms, other) && other != h;
      }
    }
  }

  /** What the first n files add up to. */
  ghost predicate Gathered(ms: seq<Migration>, n: nat, revisions: set<Id>, parents: set<Id>, unparsed: seq<nat>)
    requires n <= |ms|
  {
    && (unparsed == [] <==> AllRead(ms[..n])) && Unreadable(ms, n, unparsed)
    && (forall id :: id in revisions <==> IsRevision(ms[..n], id))
    && (unparsed == [] ==> forall id :: id in parents <==> HasChild(ms[..n], id))
  }

  lemma OneMore(ms: seq<Migration>, n: nat, id: Id)
    requires n < |ms|
    ensures IsRevision(ms[..n + 1], id) <==> IsRevision(ms[..n], id) || ms[n].revision == Some(id)
    ensures HasChild(ms[..n + 1], id) <==> HasChild(ms[..n], id) || id in ms[n].downs
  {
    assert ms[..n + 1] == ms[..n] + [ms[n]];
    assert ms[..n + 1][n] == ms[n];
  }

  lemma GatheredStep(ms: seq<Migration>, n: nat, revisions: set<Id>, parents: set<Id>, unparsed: seq<nat>)
    requires n < |ms| && Gathered(ms, n, revisions, parents, unparsed)
    ensures ms[n].revision.None? ==> Gathered(ms, n + 1, revisions, parents, unparsed + [n])
    ensures ms[n].revision.Some? ==>
              Gathered(ms, n + 1, revisions + {ms[n].revision.value}, parents + (set id | id in ms[n].downs), unparsed)
  {
    forall id
      ensures IsRevision(ms[..n + 1], id) <==> IsRevision(ms[..n], id) || ms[n].revision == Some(id)
      ensures HasChild(ms[..n + 1], id) <==> HasChild(ms[..n], id) || id in ms[n].downs
    {
      OneMore(ms, n, id);
    }
    assert ms[..n + 1] == ms[..n] + [ms[n]];
    assert AllRead(ms[..n + 1]) <==> AllRead(ms[..n]) && ms[n].revision.Some?;
    if ms[n].revision.None? {
      forall i | 0 <= i < |unparsed| ensures unparsed[i] < n { assert unparsed[i] in unparsed; }
    }
  }

  method Gather(sources: seq<Source>) returns (revisions: set<Id>, parents: set<Id>, unparsed: seq<nat>)
    ensures Gathered(Read(sources), |sources|, revisions, parents, unparsed)
  {
    var ms := Read(sources);
    revisions, parents, unparsed := {}, {}, [];
    for n := 0 to |ms|
      invariant Gathered(ms, n, revisions, parents, unparsed)
    {
      GatheredStep(ms, n, revisions, parents, unparsed);
      if ms[n].revision.None? {
        unparsed := unparsed + [n];
      } else {
        revisions := revisions + {ms[n].revision.value};
        parents := parents + (set id | id in ms[n].downs);
      }
    }
  }

  /** The members of a set, each once. */
  method Listing(s: set<Id>) returns (ids: seq<Id>)
    ensures forall id :: id in ids <==> id in s
    ensures forall j, k :: 0 <= j < k < |ids| ==> ids[j] != ids[k]
  {
    ids := [];
    var left := s;
    while exists id :: id in left
      invariant left <= s
      invariant forall id :: id in ids <==> id in s - left
      invariant forall j, k :: 0 <= j < k < |ids| ==> ids[j] != ids[k]
      decreases |left|
    {
      var id :| id in left;
      assert id !in ids;
      ids := ids + [id];
      left := left - {id};
    }
  }

  /** Passes exactly when every file was read and exactly one revision has no child. */
  method CheckSingleHead(sources: seq<Source>) returns (result: Result)
    ensures result == NoFiles <==> sources == []
    ensures result.Unparsed? <==> sources != [] && !AllRead(Read(sources))
    ensures result.Pass? <==> sources != [] && AllRead(Read(sources)) && exists h :: OnlyHead(Read(sources), h)
    ensures result.Pass? ==> OnlyHead(Read(sources), result.head)
    ensures result.Pass? ==> result.count == |Revisions(Read(sources))|
    ensures result.Unparsed? ==> Unreadable(Read(sources), |sources|, result.files)
    ensures result.Diverged? ==>
              && (forall id :: IsHead(Read(sources), id) <==> id in result.heads)
              && forall j, k :: 0 <= j < k < |result.heads| ==> result.heads[j] != result.heads[k]
  {
    if sources == [] { return NoFiles; }
    var revisions, parents, unparsed := Gather(sources);
    assert Read(sources)[..|sources|] == Read(sources);
    if unparsed != [] { return Unparsed(unparsed); }
    ghost var ms := Read(sources);
    var heads := Listing(revisions - parents);
    assert forall id :: IsHead(ms, id) <==> id in heads;
    if |heads| == 1 {
      assert OnlyHead(ms, heads[0]);
      assert revisions == Revisions(ms);
      return Pass(heads[0], |revisions|);
    }
    NotOne(ms, heads);
    result := Diverged(heads);
  }

  /** What a release may conclude from a pass. */
  lemma APassIsOneHistory(sources: seq<Source>, head: Id, id: Id)
    requires AllRead(Read(sources)) && Acyclic(Read(sources))
    requires OnlyHead(Read(sources), head)
    requires IsRevision(Read(sources), id)
    ensures LeadsTo(Read(sources), id, head)
  {
    assert IsHead(Read(sources), head);
    OneHeadExactlyWhenOneHistory(Read(sources), head);
  }
}

/**
 * The comment table (`window.shared.comments`, a taffydb collection created at
 * src/js/index.js:40-48) as a sequence of records, with the table operations
 * the core performs on it: merge-by-id, update of every record matching an id,
 * insert, and the `{deleted: false}` query ordered by
 * 'priority desc, created desc'.
 */
module Comments {

  /** One stored comment. `created` is a timestamp in milliseconds. */
  datatype Comment = Comment(
    id: string,
    created: int,
    name: string,
    message: string,
    deleted: bool,
    priority: int)

  /** The fields a poll cycle writes (src/js/index.js:106-111); moderation state is not among them. */
  datatype Incoming = Incoming(id: string, created: int, name: string, message: string)

  /** How many records carry `id`. */
  function CountId(t: seq<Comment>, id: string): (n: nat)
    ensures n <= |t|
    ensures n == 0 <==> forall i :: 0 <= i < |t| ==> t[i].id != id
  {
    if t == [] then 0 else CountId(t[..|t| - 1], id) + (if t[|t| - 1].id == id then 1 else 0)
  }

  predicate HasId(t: seq<Comment>, id: string) {
    exists i :: 0 <= i < |t| && t[i].id == id
  }

  predicate UniqueIds(t: seq<Comment>) {
    forall i, j :: 0 <= i < j < |t| ==> t[i].id != t[j].id
  }

  /**
   * A record made from an incoming one by the table's insert template:
   * `deleted: false, priority: 0` (src/js/index.js:44-47).
   */
  function FromTemplate(x: Incoming): Comment {
    Comment(x.id, x.created, x.name, x.message, false, 0)
  }

  /**
   * The fields an update-by-id writes into an existing record: those the
   * incoming object carries. Moderation state (`deleted`, `priority`) is not
   * in the incoming object, so it is kept.
   */
  function Refreshed(c: Comment, x: Incoming): Comment {
    c.(created := x.created, name := x.name, message := x.message)
  }

  /** Applies `Refreshed` to every record whose id is `x.id`, in place. */
  function RefreshAll(t: seq<Comment>, x: Incoming): (r: seq<Comment>)
    ensures |r| == |t|
    ensures forall i :: 0 <= i < |t| && t[i].id == x.id ==> r[i] == Refreshed(t[i], x)
    ensures forall i :: 0 <= i < |t| && t[i].id != x.id ==> r[i] == t[i]
  {
    if t == [] then []
    else RefreshAll(t[..|t| - 1], x) + [if t[|t| - 1].id == x.id then Refreshed(t[|t| - 1], x) else t[|t| - 1]]
  }

  /**
   * `comments.merge(x, 'id')`: when some record already has the id, every such
   * record takes the incoming fields; otherwise the record is inserted with
   * the template defaults.
   */
  function Merge(t: seq<Comment>, x: Incoming): (r: seq<Comment>)
    ensures |r| == if HasId(t, x.id) then |t| else |t| + 1
    ensures forall i :: 0 <= i < |t| ==> r[i].id == t[i].id
  {
    if HasId(t, x.id) then RefreshAll(t, x) else t + [FromTemplate(x)]
  }

  /** After a merge, a record with the id exists and carries the incoming fields. */
  lemma MergeStores(t: seq<Comment>, x: Incoming)
    ensures HasId(Merge(t, x), x.id)
    ensures forall i :: 0 <= i < |Merge(t, x)| && Merge(t, x)[i].id == x.id ==>
      var c := Merge(t, x)[i];
      c.created == x.created && c.name == x.name && c.message == x.message
    ensures !HasId(t, x.id) ==> Merge(t, x) == t + [Comment(x.id, x.created, x.name, x.message, false, 0)]
    ensures HasId(t, x.id) ==> |Merge(t, x)| == |t|
    ensures HasId(t, x.id) ==> forall i :: 0 <= i < |t| && t[i].id == x.id ==>
      Merge(t, x)[i].deleted == t[i].deleted && Merge(t, x)[i].priority == t[i].priority
  {
    if !HasId(t, x.id) {
      assert Merge(t, x)[|t|].id == x.id;
    }
  }

  /** A merge leaves every record with another id where and as it was. */
  lemma MergeKeepsOthers(t: seq<Comment>, x: Incoming)
    ensures |t| <= |Merge(t, x)| <= |t| + 1
    ensures forall i :: 0 <= i < |t| && t[i].id != x.id ==> Merge(t, x)[i] == t[i]
  {
  }

  /** Counting by id after a merge: the merged id occurs at least once and no more often than before, unless it was absent. */
  lemma {:induction false} MergeCount(t: seq<Comment>, x: Incoming, id: string)
    ensures CountId(Merge(t, x), id) ==
      if id != x.id then CountId(t, id)
      else if CountId(t, id) == 0 then 1
      else CountId(t, id)
  {
    if HasId(t, x.id) {
      RefreshAllCount(t, x, id);
    } else {
      var r := t + [FromTemplate(x)];
      assert r[..|r| - 1] == t;
    }
  }

  lemma {:induction false} RefreshAllCount(t: seq<Comment>, x: Incoming, id: string)
    ensures CountId(RefreshAll(t, x), id) == CountId(t, id)
  {
    if t != [] {
      var r := RefreshAll(t, x);
      RefreshAllCount(t[..|t| - 1], x, id);
      assert r[..|r| - 1] == RefreshAll(t[..|t| - 1], x);
    }
  }

  /** Merging twice with the same id into a table without it leaves exactly one record with that id. */
  lemma MergeSameIdTwice(t: seq<Comment>, x: Incoming, y: Incoming)
    requires x.id == y.id && !HasId(t, x.id)
    ensures CountId(Merge(Merge(t, x), y), x.id) == 1
  {
    assert CountId(t, x.id) == 0;
    MergeCount(t, x, x.id);
    MergeCount(Merge(t, x), y, x.id);
  }

  /** Merging keeps ids unique. */
  lemma MergeKeepsUnique(t: seq<Comment>, x: Incoming)
    requires UniqueIds(t)
    ensures UniqueIds(Merge(t, x))
  {
  }

  /** `comments({id}).update(function () { this.priority++; })` (src/js/moderate.js:43-48). */
  function Prioritized(t: seq<Comment>, id: string): (r: seq<Comment>)
    ensures |r| == |t|
    ensures forall i :: 0 <= i < |t| ==> r[i].id == t[i].id && r[i].deleted == t[i].deleted
  {
    if t == [] then []
    else
      var c := t[|t| - 1];
      Prioritized(t[..|t| - 1], id) + [if c.id == id then c.(priority := c.priority + 1) else c]
  }

  /** `comments({id}).update({deleted: true})` (src/js/moderate.js:52-56). */
  function SoftDeleted(t: seq<Comment>, id: string): (r: seq<Comment>)
    ensures |r| == |t|
    ensures forall i :: 0 <= i < |t| ==> r[i].id == t[i].id && r[i].priority == t[i].priority
  {
    if t == [] then []
    else
      var c := t[|t| - 1];
      SoftDeleted(t[..|t| - 1], id) + [if c.id == id then c.(deleted := true) else c]
  }

  /** Prioritizing raises the priority of the records with that id by exactly one and changes nothing else. */
  lemma {:induction false} PrioritizedAt(t: seq<Comment>, id: string, i: nat)
    requires i < |t|
    ensures Prioritized(t, id)[i] ==
      if t[i].id == id then t[i].(priority := t[i].priority + 1) else t[i]
  {
    if i < |t| - 1 {
      PrioritizedAt(t[..|t| - 1], id, i);
    }
  }

  /** Deleting marks the records with that id as deleted and changes nothing else. */
  lemma {:induction false} SoftDeletedAt(t: seq<Comment>, id: string, i: nat)
    requires i < |t|
    ensures SoftDeleted(t, id)[i] ==
      if t[i].id == id then t[i].(deleted := true) else t[i]
  {
    if i < |t| - 1 {
      SoftDeletedAt(t[..|t| - 1], id, i);
    }
  }

  /** Inserting a record whose id is new keeps ids unique; one whose id is taken does not. */
  lemma InsertUnique(t: seq<Comment>, c: Comment)
    requires UniqueIds(t)
    ensures UniqueIds(t + [c]) <==> !HasId(t, c.id)
  {
    if HasId(t, c.id) {
      var i :| 0 <= i < |t| && t[i].id == c.id;
      assert (t + [c])[i].id == (t + [c])[|t|].id;
    }
  }

  // ---- the moderator/teleprompter query: {deleted: false}, 'priority desc, created desc'

  /** `a` may be listed before `b`: higher priority first, then the more recent. */
  predicate Precedes(a: Comment, b: Comment) {
    a.priority > b.priority || (a.priority == b.priority && a.created >= b.created)
  }

  predicate Ordered(s: seq<Comment>) {
    forall i, j :: 0 <= i < j < |s| ==> Precedes(s[i], s[j])
  }

  /** The records with `deleted == false`, in table order. */
  function Live(t: seq<Comment>): (r: seq<Comment>)
    ensures forall c :: c in r <==> c in t && !c.deleted
  {
    if t == [] then []
    else Live(t[..|t| - 1]) + (if t[|t| - 1].deleted then [] else [t[|t| - 1]])
  }

  /** Places `c` in an ordered list. */
  function InsertOrdered(c: Comment, s: seq<Comment>): (r: seq<Comment>)
    requires Ordered(s)
    ensures Ordered(r)
    ensures multiset(r) == multiset(s) + multiset{c}
    ensures s != [] ==> r[0] == c || r[0] == s[0]
    ensures s == [] ==> r == [c]
  {
    if s == [] || Precedes(c, s[0]) then [c] + s
    else
      var rest := InsertOrdered(c, s[1..]);
      assert s == [s[0]] + s[1..];
      OrderedCons(s[0], rest);
      [s[0]] + rest
  }

  /** An ordered list stays ordered under a record that precedes its head. */
  lemma OrderedCons(x: Comment, r: seq<Comment>)
    requires Ordered(r) && (r != [] ==> Precedes(x, r[0]))
    ensures Ordered([x] + r)
  {
    forall j | 0 < j < |[x] + r| ensures Precedes(([x] + r)[0], ([x] + r)[j]) {
      assert Precedes(r[0], r[j - 1]) || j == 1;
    }
  }

  /** Sorts by 'priority desc, created desc' (insertion sort). */
  function SortForDisplay(s: seq<Comment>): (r: seq<Comment>)
    ensures Ordered(r)
    ensures multiset(r) == multiset(s)
  {
    if s == [] then []
    else
      assert s == [s[0]] + s[1..];
      InsertOrdered(s[0], SortForDisplay(s[1..]))
  }

  /** What the moderator panel and the teleprompter list: the live records, ordered. */
  function DisplayList(t: seq<Comment>): (r: seq<Comment>)
    ensures Ordered(r) && multiset(r) == multiset(Live(t))
  {
    SortForDisplay(Live(t))
  }

  /**
   * The displayed list is ordered, holds exactly the records that are not
   * deleted, and each as often as the table holds it.
   */
  lemma DisplayListExactly(t: seq<Comment>)
    ensures Ordered(DisplayList(t))
    ensures multiset(DisplayList(t)) == multiset(Live(t))
    ensures forall c :: c in DisplayList(t) <==> c in t && !c.deleted
  {
    var d := DisplayList(t);
    forall c ensures c in d <==> c in Live(t) {
      assert c in d <==> c in multiset(d);
      assert c in Live(t) <==> c in multiset(Live(t));
    }
  }

  /** The live records after a delete: none has that id, and every other live record stays. */
  lemma {:induction false} SoftDeletedLive(t: seq<Comment>, id: string)
    ensures forall c :: c in Live(SoftDeleted(t, id)) ==> c.id != id
    ensures forall c :: c in Live(t) && c.id != id ==> c in Live(SoftDeleted(t, id))
  {
    if t != [] {
      SoftDeletedLive(t[..|t| - 1], id);
    }
  }

  /** After a delete, no record with that id is displayed; other ids are displayed as before. */
  lemma DeletedNotDisplayed(t: seq<Comment>, id: string)
    ensures forall c :: c in DisplayList(SoftDeleted(t, id)) ==> c.id != id
    ensures forall c :: c in DisplayList(t) && c.id != id ==> c in DisplayList(SoftDeleted(t, id))
  {
    DisplayListExactly(t);
    DisplayListExactly(SoftDeleted(t, id));
    SoftDeletedLive(t, id);
  }
}

/**
 * The object list of the home page (app/page.tsx): the list state, its
 * load from the API, the two real-time handlers that edit it, and the
 * choice of what the page shows.
 */
module HomePage {
  import opened Wrappers

  /** ObjectData as the API returns it; `_id` may be absent. */
  datatype ObjectData = ObjectData(
    id: Option<string>,
    title: string,
    description: string,
    imageUrl: Option<string>,
    createdAt: Option<int>)

  // ---------------------------------------------------------------------
  // The list reducers of the real-time handlers
  // ---------------------------------------------------------------------

  /** `objectCreated`: `[newObject, ...prev]`. */
  function Created(prev: seq<ObjectData>, newObject: ObjectData): (r: seq<ObjectData>)
    ensures |r| == |prev| + 1 && r[0] == newObject && r[1..] == prev
  {
    [newObject] + prev
  }

  /** An object the `objectDeleted` handler keeps: `obj._id !== id`. */
  predicate Keeps(obj: ObjectData, id: string)
    ensures obj.id.None? ==> Keeps(obj, id)
    ensures Keeps(obj, id) <==> obj.id.None? || obj.id.value != id
  {
    obj.id != Some(id)
  }

  /** `objectDeleted`: `prev.filter(obj => obj._id !== id)`. */
  function Deleted(prev: seq<ObjectData>, id: string): (r: seq<ObjectData>)
    ensures |r| <= |prev|
    ensures forall x :: x in r <==> x in prev && Keeps(x, id)
    ensures forall x :: multiset(r)[x] == if Keeps(x, id) then multiset(prev)[x] else 0
  {
    if |prev| == 0 then []
    else
      var rest := Deleted(prev[1..], id);
      assert prev == [prev[0]] + prev[1..];
      if Keeps(prev[0], id) then [prev[0]] + rest else rest
  }

  /** `sub` keeps some of the elements of `s`, in their order. */
  predicate IsSubsequence(sub: seq<ObjectData>, s: seq<ObjectData>)
    decreases |s|
  {
    if |sub| == 0 then true
    else if |s| == 0 then false
    else if sub[0] == s[0] then IsSubsequence(sub[1..], s[1..])
    else IsSubsequence(sub, s[1..])
  }

  /** Deletion keeps the survivors in their original relative order. */
  lemma {:induction false} DeletedKeepsOrder(prev: seq<ObjectData>, id: string)
    ensures IsSubsequence(Deleted(prev, id), prev)
    decreases |prev|
  {
    if |prev| > 0 {
      DeletedKeepsOrder(prev[1..], id);
      var rest := Deleted(prev[1..], id);
      if !Keeps(prev[0], id) {
        if |rest| > 0 {
          assert rest[0] in rest;
          assert rest[0] != prev[0];
        }
      }
    }
  }

  /** Deletion filters element by element: it distributes over concatenation. */
  lemma {:induction false} DeletedDistributes(a: seq<ObjectData>, b: seq<ObjectData>, id: string)
    ensures Deleted(a + b, id) == Deleted(a, id) + Deleted(b, id)
    decreases |a|
  {
    if |a| > 0 {
      assert (a + b)[1..] == a[1..] + b;
      DeletedDistributes(a[1..], b, id);
    } else {
      assert a + b == b;
    }
  }

  /** Deleting an id no object carries leaves the list as it was. */
  lemma {:induction false} DeletedAbsentIsIdentity(prev: seq<ObjectData>, id: string)
    requires forall x :: x in prev ==> Keeps(x, id)
    ensures Deleted(prev, id) == prev
    decreases |prev|
  {
    if |prev| > 0 {
      assert prev[0] in prev;
      assert forall x :: x in prev[1..] ==> x in prev;
      DeletedAbsentIsIdentity(prev[1..], id);
      assert prev == [prev[0]] + prev[1..];
    }
  }

  /** Delivering the same deletion twice has the effect of delivering it once. */
  lemma DeletedIdempotent(prev: seq<ObjectData>, id: string)
    ensures Deleted(Deleted(prev, id), id) == Deleted(prev, id)
  {
    DeletedAbsentIsIdentity(Deleted(prev, id), id);
  }

  /** A deletion of the id a creation just announced undoes the creation,
      when no older object carries that id. */
  lemma DeleteUndoesCreate(prev: seq<ObjectData>, newObject: ObjectData, id: string)
    requires newObject.id == Some(id)
    requires forall x :: x in prev ==> Keeps(x, id)
    ensures Deleted(Created(prev, newObject), id) == prev
  {
    DeletedAbsentIsIdentity(prev, id);
    DeletedDistributes([newObject], prev, id);
    assert Deleted([newObject], id) == [];
  }

  // ---------------------------------------------------------------------
  // What the page shows
  // ---------------------------------------------------------------------

  const LoadingText := "Chargement..."
  const EmptyText := "Aucun objet pour le moment. Créez-en un !"

  /** A line of text, or the grid with one card per object. */
  datatype View = Notice(text: string) | Grid(cards: seq<ObjectData>)

  /** The conditional in the page's `<main>`. */
  function Render(loading: bool, objects: seq<ObjectData>): (v: View)
    ensures v == Notice(LoadingText) <==> loading
    ensures v == Notice(EmptyText) <==> !loading && |objects| == 0
    ensures v.Grid? <==> !loading && |objects| > 0
    ensures v.Grid? ==> v.cards == objects
  {
    if loading then Notice(LoadingText)
    else if |objects| == 0 then Notice(EmptyText)
    else Grid(objects)
  }

  /** Once loaded, a created object is shown, as the first card. */
  lemma CreatedObjectShownFirst(prev: seq<ObjectData>, newObject: ObjectData)
    ensures Render(false, Created(prev, newObject)).Grid?
    ensures Render(false, Created(prev, newObject)).cards[0] == newObject
  {
  }

  // ---------------------------------------------------------------------
  // The component state
  // ---------------------------------------------------------------------

  /** The state of HomePage: `objects` and `loading`. */
  class Page {
    var objects: seq<ObjectData>
    var loading: bool

    /** `useState([])` and `useState(true)`. */
    constructor ()
      ensures objects == [] && loading
    {
      objects, loading := [], true;
    }

    /** loadObjects: on success the fetched list replaces the current one,
        on failure (the catch) it is kept; either way `loading` ends false
        (the finally). */
    method LoadObjects(fetched: Option<seq<ObjectData>>)
      modifies this
      ensures objects == (if fetched.Some? then fetched.value else old(objects))
      ensures !loading
    {
      match fetched {
        case Some(data) => objects := data;
        case None =>
      }
      loading := false;
    }

    /** The `objectCreated` handler. */
    method OnObjectCreated(newObject: ObjectData)
      modifies this`objects
      ensures objects == Created(old(objects), newObject)
    {
      objects := [newObject] + objects;
    }

    /** The `objectDeleted` handler. */
    method OnObjectDeleted(id: string)
      modifies this`objects
      ensures objects == Deleted(old(objects), id)
    {
      objects := Deleted(objects, id);
    }
  }
}

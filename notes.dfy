/** The note routes: a store of notes keyed by id, with create, read, partial update,
    hard delete, listing and substring search. */
module Notes {
  import opened Wrappers
  import opened PyText
  import opened Http

  /** A title whose stripped form is longer than this is refused, on create and on update. */
  const MaxTitleLength := 30

  /** A stored row. `updatedAt` is the key listings are ordered by; when the row's timestamp
      is refreshed is decided by the model class, so every write receives it as `stamp`. */
  datatype Note = Note(title: string, content: string, updatedAt: int)

  /** What a handler returns for one note: `to_dict()` plus the `can_delete` hint when the
      handler adds one. The hint is never stored. */
  datatype NoteView = NoteView(id: int, title: string, content: string, updatedAt: int, canDelete: Option<bool>)

  function View(id: int, n: Note, hint: Option<bool>): NoteView {
    NoteView(id, n.title, n.content, n.updatedAt, hint)
  }

  /** The keys of a create body the handler reads (`None`: the key is missing). */
  datatype CreateBody = CreateBody(title: Option<string>, content: Option<string>)

  /** The keys of an update body the handler reads, and whether the body has any other key
      (such a body is truthy yet changes nothing). */
  datatype UpdateBody = UpdateBody(title: Field<string>, content: Option<string>, otherKeys: bool)
  {
    /** `not data` for a parsed object: only the empty object is falsy. */
    predicate IsEmpty() {
      title.Absent? && content.None? && !otherKeys
    }
  }

  /** What can escape the statements inside a handler's `try` block: the abort that
      `get_or_404` raises, or a failed commit. `text` is `str(e)`. */
  datatype Raised = HttpAbort(code: int, text: string) | StoreFailure(text: string)

  const NotFoundAbort := HttpAbort(404, "404 Not Found: The requested URL was not found on the server. If you entered the URL manually please check your spelling and try again.")

  /** The `except Exception` arm of `update_note` and `delete_note` as written: it rolls back
      and answers 500 with `str(e)` for every exception, the 404 abort included. */
  function CatchAllAsWritten<T>(e: Raised): (r: Reply<T>)
    ensures r.Err? && r.status == 500 && r.error == e.text && r.detail.None?
  {
    Err(500, e.text, None)
  }

  /** The intended handling: an abort keeps its own status, any other failure is a 500. */
  function CatchAll<T>(e: Raised): (r: Reply<T>)
    ensures r.Err? && r.error == e.text
    ensures e.HttpAbort? ==> r.status == e.code
    ensures e.StoreFailure? ==> r == CatchAllAsWritten(e)
  {
    match e
    case HttpAbort(code, text) => Err(code, text, None)
    case StoreFailure(text) => Err(500, text, None)
  }

  /** The exhibit for the finding: a missing id reaches the caller as 500, not 404. */
  lemma MissingNoteAnswers500AsWritten()
    ensures CatchAllAsWritten<NoteView>(NotFoundAbort).status == 500
    ensures CatchAll<NoteView>(NotFoundAbort).status == 404
  {
  }

  /** The checks of `create_note`: both keys must be present (empty strings pass) and the
      stripped title may not exceed 30 characters; on success the RAW title and content are
      what gets stored. */
  function ValidateCreate(body: Option<CreateBody>): (r: Result<(string, string), string>)
    ensures r.Success? <==> body.Some? && body.value.title.Some? && body.value.content.Some?
                            && |Strip(body.value.title.value)| <= MaxTitleLength
    ensures r.Success? ==> r.value == (body.value.title.value, body.value.content.value)
    ensures body.None? || body.value.title.None? || body.value.content.None? ==>
              r == Failure("Title and content are required")
    ensures r.Failure? && r != Failure("Title and content are required") ==>
              r == Failure("Title should be less than 30 characters")
  {
    if body.None? || body.value.title.None? || body.value.content.None? then
      Failure("Title and content are required")
    else if |Strip(body.value.title.value)| > MaxTitleLength then
      Failure("Title should be less than 30 characters")
    else
      Success((body.value.title.value, body.value.content.value))
  }

  /** The field updates of `update_note` applied to the stored note `n`. A title key holding
      a string is stripped; too long is a failure (400); blank keeps the old title; otherwise
      the STRIPPED title is stored. A missing or null title key leaves the title alone, and
      content changes only when its key is present. */
  function ApplyUpdate(n: Note, body: UpdateBody, stamp: int): (r: Result<Note, string>)
    ensures r.Failure? <==> body.title.Given? && |Strip(body.title.value)| > MaxTitleLength
    ensures r.Success? && (!body.title.Given? || AllSpace(body.title.value)) ==>
              r.value.title == n.title
    ensures r.Success? && body.title.Given? && !AllSpace(body.title.value) ==>
              && r.value.title == Strip(body.title.value)
              && !IsSpace(r.value.title[0]) && !IsSpace(r.value.title[|r.value.title| - 1])
    ensures r.Success? ==> r.value.content == (if body.content.Some? then body.content.value else n.content)
    ensures r.Success? ==> r.value.updatedAt == stamp
  {
    var title: Result<string, string> :=
      if body.title.Given? then
        var t := Strip(body.title.value);
        if |t| > MaxTitleLength then Failure("Title should be less than 30 characters")
        else if t != [] then Success(t)
        else Success(n.title)
      else
        Success(n.title);
    match title
    case Failure(e) => Failure(e)
    case Success(t) =>
      Success(Note(t, if body.content.Some? then body.content.value else n.content, stamp))
  }

  /** The filter of `search_notes`: the query occurs in the title or in the content. */
  ghost predicate MatchesSpec(n: Note, q: string) {
    Contains(n.title, q) || Contains(n.content, q)
  }

  predicate Matches(n: Note, q: string)
    ensures Matches(n, q) <==> MatchesSpec(n, q)
  {
    Occurs(q, n.title) || Occurs(q, n.content)
  }

  /** The ids among `ids` whose note matches `q`. */
  ghost function MatchingIds(notes: map<int, Note>, ids: set<int>, q: string): set<int> {
    set k | k in ids && k in notes && MatchesSpec(notes[k], q)
  }

  /** `rows` is what `ORDER BY updated_at DESC` may return for the rows `ids`: each of them
      exactly once, most recently updated first, rows with equal timestamps in any order. */
  predicate IsListing(notes: map<int, Note>, ids: set<int>, rows: seq<int>) {
    && ids <= notes.Keys
    && (forall i :: 0 <= i < |rows| ==> rows[i] in ids)
    && (forall k :: k in ids ==> k in rows)
    && (forall i, j :: 0 <= i < j < |rows| ==> rows[i] != rows[j])
    && (forall i, j :: 0 <= i < j < |rows| ==> notes[rows[i]].updatedAt >= notes[rows[j]].updatedAt)
  }

  function IdsOf(views: seq<NoteView>): (ids: seq<int>)
    ensures |ids| == |views|
  {
    seq(|views|, i requires 0 <= i < |views| => views[i].id)
  }

  /** Each view shows the stored note with that id and carries the hint `hint`. */
  predicate ShowsStored(notes: map<int, Note>, views: seq<NoteView>, hint: Option<bool>) {
    forall i :: 0 <= i < |views| ==> views[i].id in notes && views[i] == View(views[i].id, notes[views[i].id], hint)
  }

  /** Some element of a non-empty set. */
  lemma Pick(s: set<int>) returns (x: int)
    requires s != {}
    ensures x in s
  {
    if forall y :: y !in s {
      assert false;
    }
    x :| x in s;
  }

  ghost predicate IsLatest(notes: map<int, Note>, ids: set<int>, k: int)
    requires ids <= notes.Keys
  {
    k in ids && forall j :: j in ids ==> notes[j].updatedAt <= notes[k].updatedAt
  }

  lemma {:induction false} LatestExists(notes: map<int, Note>, ids: set<int>)
    requires ids <= notes.Keys && ids != {}
    ensures exists k :: IsLatest(notes, ids, k)
    decreases ids
  {
    var x := Pick(ids);
    var rest := ids - {x};
    if rest == {} {
      assert IsLatest(notes, ids, x) by {
        forall j | j in ids ensures j == x {
          assert j !in rest;
        }
      }
    } else {
      LatestExists(notes, rest);
      var k :| IsLatest(notes, rest, k);
      var best := if notes[x].updatedAt <= notes[k].updatedAt then k else x;
      assert IsLatest(notes, ids, best) by {
        forall j | j in ids ensures notes[j].updatedAt <= notes[best].updatedAt {
          if j != x { assert j in rest; }
        }
      }
    }
  }

  /** Putting a most recently updated row in front of a listing of the other rows gives a
      listing of all of them. */
  lemma ListingCons(notes: map<int, Note>, ids: set<int>, k: int, rest: seq<int>)
    requires ids <= notes.Keys && k in ids && IsListing(notes, ids - {k}, rest)
    requires forall j :: j in ids ==> notes[j].updatedAt <= notes[k].updatedAt
    ensures IsListing(notes, ids, [k] + rest)
  {
    var rows := [k] + rest;
    assert forall i :: 1 <= i < |rows| ==> rows[i] == rest[i - 1];
    forall j | j in ids ensures j in rows {
      if j != k { assert j in ids - {k}; }
    }
  }

  /** Dropping the first row of a listing gives a listing of the remaining rows. */
  lemma ListingTail(notes: map<int, Note>, ids: set<int>, rows: seq<int>)
    requires IsListing(notes, ids, rows) && rows != []
    ensures IsListing(notes, ids - {rows[0]}, rows[1..])
  {
    var tail := rows[1..];
    assert forall i :: 0 <= i < |tail| ==> tail[i] == rows[i + 1];
    forall k | k in ids - {rows[0]} ensures k in tail {
      var i :| 0 <= i < |rows| && rows[i] == k;
      assert tail[i - 1] == k;
    }
  }

  /** One ordering the database may produce: repeatedly take a most recently updated row.
      Whatever the rows and their timestamps, the ordered query has an answer. */
  ghost function ByRecency(notes: map<int, Note>, ids: set<int>): (rows: seq<int>)
    requires ids <= notes.Keys
    ensures IsListing(notes, ids, rows)
    decreases ids
  {
    if ids == {} then []
    else
      LatestExists(notes, ids);
      var k :| IsLatest(notes, ids, k);
      var rest := ByRecency(notes, ids - {k});
      ListingCons(notes, ids, k, rest);
      [k] + rest
  }

  /** The rows of `rows` whose note matches `q`, in their order. */
  function FilterMatching(notes: map<int, Note>, rows: seq<int>, q: string): (r: seq<int>)
    requires forall i :: 0 <= i < |rows| ==> rows[i] in notes
    ensures forall i :: 0 <= i < |r| ==> r[i] in rows && MatchesSpec(notes[r[i]], q)
    ensures forall i :: 0 <= i < |rows| && MatchesSpec(notes[rows[i]], q) ==> rows[i] in r
  {
    if rows == [] then []
    else
      var rest := FilterMatching(notes, rows[1..], q);
      assert forall i :: 1 <= i < |rows| ==> rows[i] == rows[1..][i - 1];
      if Matches(notes[rows[0]], q) then [rows[0]] + rest else rest
  }

  /** Search is a filter plus a sort: filtering a listing by the query gives an ordering the
      search query may return. */
  lemma {:induction false} FilteredListingIsSearch(notes: map<int, Note>, ids: set<int>, rows: seq<int>, q: string)
    requires IsListing(notes, ids, rows)
    ensures IsListing(notes, MatchingIds(notes, ids, q), FilterMatching(notes, rows, q))
    decreases |rows|
  {
    var wanted := MatchingIds(notes, ids, q);
    if rows == [] {
      assert forall k :: k in ids ==> k in rows;
      assert ids == {};
      assert wanted == {};
    } else {
      var head, tail := rows[0], rows[1..];
      ListingTail(notes, ids, rows);
      FilteredListingIsSearch(notes, ids - {head}, tail, q);
      var rest := FilterMatching(notes, tail, q);
      assert FilterMatching(notes, rows, q) == if Matches(notes[head], q) then [head] + rest else rest;
      if Matches(notes[head], q) {
        assert MatchingIds(notes, ids - {head}, q) == wanted - {head};
        forall j | j in wanted ensures notes[j].updatedAt <= notes[head].updatedAt {
          var i :| 0 <= i < |rows| && rows[i] == j;
        }
        ListingCons(notes, wanted, head, rest);
      } else {
        assert MatchingIds(notes, ids - {head}, q) == wanted;
      }
    }
  }

  /** The notes table, updated in place by the route handlers. New ids are drawn from the
      counter `nextId`, which stays above every id in the table. */
  class NoteStore {
    var notes: map<int, Note>
    var nextId: int

    ghost predicate Valid()
      reads this
    {
      forall id :: id in notes ==> id < nextId
    }

    constructor ()
      ensures Valid() && notes == map[]
    {
      notes := map[];
      nextId := 1;
    }

    /** `POST /notes`. A refused body or a failed commit leaves the table unchanged. */
    method Create(body: Option<CreateBody>, stamp: int, commitError: Option<string>) returns (r: Reply<NoteView>)
      requires Valid()
      modifies this
      ensures Valid()
      ensures ValidateCreate(body).Failure? ==>
                r == Err(400, ValidateCreate(body).error, None) && notes == old(notes)
      ensures ValidateCreate(body).Success? && commitError.Some? ==>
                r == CatchAll(StoreFailure(commitError.value)) && notes == old(notes)
      ensures ValidateCreate(body).Success? && commitError.None? ==>
                var (title, content) := ValidateCreate(body).value;
                && r.Ok? && r.status == 201
                && r.body.id !in old(notes)
                && notes == old(notes)[r.body.id := Note(title, content, stamp)]
                && r.body == View(r.body.id, Note(title, content, stamp), Some(false))
    {
      var checked := ValidateCreate(body);
      if checked.Failure? {
        return Err(400, checked.error, None);
      }
      if commitError.Some? {
        return CatchAll(StoreFailure(commitError.value));
      }
      var note := Note(checked.value.0, checked.value.1, stamp);
      var id := nextId;
      notes := notes[id := note];
      nextId := nextId + 1;
      r := Ok(201, View(id, note, Some(false)));
    }

    /** `GET /notes/<id>`. */
    method Get(id: int) returns (r: Reply<NoteView>)
      ensures id in notes ==> r.Ok? && r.status == 200 && r.body == View(id, notes[id], Some(true))
      ensures id !in notes ==> r.Err? && r.status == 404
    {
      if id !in notes {
        return Err(404, NotFoundAbort.text, None);
      }
      r := Ok(200, View(id, notes[id], Some(true)));
    }

    /** `PUT /notes/<id>`: only the named note changes, and only on a successful commit. */
    method Update(id: int, body: Option<UpdateBody>, stamp: int, commitError: Option<string>) returns (r: Reply<NoteView>)
      requires Valid()
      modifies this
      ensures Valid() && nextId == old(nextId)
      ensures id !in old(notes) ==> r == CatchAll(NotFoundAbort) && notes == old(notes)
      ensures id in old(notes) && (body.None? || body.value.IsEmpty()) ==>
                r == Err(400, "No data provided", None) && notes == old(notes)
      ensures id in old(notes) && body.Some? && !body.value.IsEmpty() ==>
                var u := ApplyUpdate(old(notes)[id], body.value, stamp);
                && (u.Failure? ==> r == Err(400, u.error, None) && notes == old(notes))
                && (u.Success? && commitError.Some? ==>
                      r == CatchAll(StoreFailure(commitError.value)) && notes == old(notes))
                && (u.Success? && commitError.None? ==>
                      r == Ok(200, View(id, u.value, Some(true))) && notes == old(notes)[id := u.value])
    {
      if id !in notes {
        return CatchAll(NotFoundAbort);
      }
      if body.None? || body.value.IsEmpty() {
        return Err(400, "No data provided", None);
      }
      var u := ApplyUpdate(notes[id], body.value, stamp);
      if u.Failure? {
        return Err(400, u.error, None);
      }
      if commitError.Some? {
        return CatchAll(StoreFailure(commitError.value));
      }
      notes := notes[id := u.value];
      r := Ok(200, View(id, u.value, Some(true)));
    }

    /** `DELETE /notes/<id>`: a hard delete of exactly that row. */
    method Delete(id: int, commitError: Option<string>) returns (r: Reply<()>)
      requires Valid()
      modifies this
      ensures Valid() && nextId == old(nextId)
      ensures id !in old(notes) ==> r == CatchAll(NotFoundAbort) && notes == old(notes)
      ensures id in old(notes) && commitError.Some? ==>
                r == CatchAll(StoreFailure(commitError.value)) && notes == old(notes)
      ensures id in old(notes) && commitError.None? ==>
                r == Ok(204, ()) && notes == old(notes) - {id}
    {
      if id !in notes {
        return CatchAll(NotFoundAbort);
      }
      if commitError.Some? {
        return CatchAll(StoreFailure(commitError.value));
      }
      notes := notes - {id};
      r := Ok(204, ());
    }

    /** `GET /notes`: every note once, most recently updated first, without a hint. */
    method List() returns (views: seq<NoteView>)
      ensures IsListing(notes, notes.Keys, IdsOf(views))
      ensures ShowsStored(notes, views, None)
    {
      var table := notes;
      var ids := table.Keys;
      assert IsListing(table, ids, ByRecency(table, ids));
      var rows :| IsListing(table, ids, rows);
      forall i | 0 <= i < |rows| ensures rows[i] in table {
        assert IsListing(table, ids, rows);
        assert rows[i] in ids;
        assert ids <= table.Keys;
      }
      views := seq(|rows|, i requires 0 <= i < |rows| => View(rows[i], table[rows[i]], None));
      assert IdsOf(views) == rows;
    }

    /** `GET /notes/search?q=`: nothing for an empty query; otherwise exactly the notes whose
        title or content contains the query, most recently updated first, each marked
        deletable. */
    method Search(q: string) returns (views: seq<NoteView>)
      ensures q == [] ==> views == []
      ensures q != [] ==> IsListing(notes, MatchingIds(notes, notes.Keys, q), IdsOf(views))
      ensures ShowsStored(notes, views, Some(true))
    {
      if q == [] {
        return [];
      }
      var table := notes;
      var ids := set k | k in table && Matches(table[k], q);
      assert ids == MatchingIds(table, table.Keys, q);
      assert IsListing(table, ids, ByRecency(table, ids));
      var rows :| IsListing(table, ids, rows);
      forall i | 0 <= i < |rows| ensures rows[i] in table {
        assert IsListing(table, ids, rows);
        assert rows[i] in ids;
        assert ids <= table.Keys;
      }
      views := [];
      for i := 0 to |rows|
        invariant |views| == i
        invariant forall j :: 0 <= j < i ==> views[j] == View(rows[j], table[rows[j]], Some(true))
      {
        views := views + [View(rows[i], table[rows[i]], Some(true))];
      }
      assert IdsOf(views) == rows;
    }
  }

  /** The round trip of the smoke test: a created note reads back with the same title and
      content; only the creation reply hides the delete button. */
  method CreateThenGet(store: NoteStore, title: string, content: string, stamp: int)
    returns (created: Reply<NoteView>, fetched: Reply<NoteView>)
    requires store.Valid() && |Strip(title)| <= MaxTitleLength
    modifies store
    ensures created.Ok? && created.status == 201 && created.body.canDelete == Some(false)
    ensures fetched.Ok? && fetched.status == 200 && fetched.body.id == created.body.id
    ensures fetched.body.title == title && fetched.body.content == content
    ensures fetched.body.canDelete == Some(true)
  {
    created := store.Create(Some(CreateBody(Some(title), Some(content))), stamp, None);
    fetched := store.Get(created.body.id);
  }

  /** After a successful delete, reading the same id is a 404 and every other note stays. */
  method DeleteThenGet(store: NoteStore, id: int) returns (deleted: Reply<()>, fetched: Reply<NoteView>)
    requires store.Valid() && id in store.notes
    modifies store
    ensures deleted == Ok(204, ())
    ensures fetched.Err? && fetched.status == 404
    ensures forall k :: k in old(store.notes) && k != id ==> k in store.notes && store.notes[k] == old(store.notes)[k]
  {
    deleted := store.Delete(id, None);
    fetched := store.Get(id);
  }
}

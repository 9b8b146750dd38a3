/** The media list screen: the signed-in user's records loaded from the
    `media` collection, the filter over them, and adding and deleting records. */
module MediaList {
  import opened Common
  import opened Text
  import opened Firestore

  /** Which failure the list reports in its error snackbar. */
  datatype ListError = FetchFailed | AddFailed | DeleteFailed

  // ---------------------------------------------------------------------------
  // Loading

  /** `{ id: doc.id, ...doc.data() }`: the loaded item; a stored `id` field wins over the document id. */
  function Tagged(s: Snapshot): (r: Doc)
    ensures "id" in r && r["id"] == (if "id" in s.data then s.data["id"] else Str(s.id))
    ensures forall f :: f != "id" ==> (f in r <==> f in s.data) && (f in r ==> r[f] == s.data[f])
  {
    map["id" := Str(s.id)] + s.data
  }

  function Listing(snaps: seq<Snapshot>): (r: seq<Doc>)
    ensures |r| == |snaps|
    ensures forall i :: 0 <= i < |snaps| ==> r[i] == Tagged(snaps[i])
  {
    seq(|snaps|, i requires 0 <= i < |snaps| => Tagged(snaps[i]))
  }

  /** The user's items as the query `userId == uid` over `docs` lists them. */
  ghost predicate ListsOwnItems(docs: map<DocKey, Doc>, uid: string, items: seq<Doc>) {
    exists snaps :: IsQueryResult(docs, Media, "userId", Str(uid), snaps) && items == Listing(snaps)
  }

  /** The document `handleAddMedia` writes: the draft's fields, with `userId`,
      `createdAt` and `status` always set by the list itself. */
  function NewMediaDoc(draft: Doc, uid: string, now: string): Doc {
    draft + map["userId" := Str(uid), "createdAt" := Str(now), "status" := Str("planned")]
  }

  /** Whatever the draft carries, the owner, timestamp and `planned` status
      override it; every other draft field is stored as given, and nothing else is added. */
  lemma NewMediaDocFields(draft: Doc, uid: string, now: string)
    ensures var d := NewMediaDoc(draft, uid, now);
      && d["userId"] == Str(uid) && d["createdAt"] == Str(now) && d["status"] == Str("planned")
      && (forall f :: f in draft && f !in {"userId", "createdAt", "status"} ==> f in d && d[f] == draft[f])
      && d.Keys == draft.Keys + {"userId", "createdAt", "status"}
  {
  }

  /** After an add, the refetched list holds the new record exactly once, with
      exactly the fields written, beside the records the user already had. */
  lemma {:induction false} AddedRecordListedOnce(docs: map<DocKey, Doc>, uid: string, id: string, draft: Doc, now: string, snaps: seq<Snapshot>)
    requires DocKey(Media, id) !in docs
    requires IsQueryResult(docs[DocKey(Media, id) := NewMediaDoc(draft, uid, now)], Media, "userId", Str(uid), snaps)
    ensures exists i :: 0 <= i < |snaps| && snaps[i] == Snapshot(id, NewMediaDoc(draft, uid, now))
    ensures forall i, j :: 0 <= i < |snaps| && 0 <= j < |snaps| && snaps[i].id == id && snaps[j].id == id ==> i == j
    ensures forall i :: 0 <= i < |snaps| && snaps[i].id != id ==>
      DocKey(Media, snaps[i].id) in docs && docs[DocKey(Media, snaps[i].id)] == snaps[i].data
  {
    var key := DocKey(Media, id);
    var after := docs[key := NewMediaDoc(draft, uid, now)];
    NewMediaDocFields(draft, uid, now);
    assert key in after && FieldEquals(after[key], "userId", Str(uid));
    var i :| 0 <= i < |snaps| && snaps[i].id == key.id;
    assert snaps[i] == Snapshot(id, NewMediaDoc(draft, uid, now));
  }

  /** After a delete, the refetched list holds no record stored under the deleted id. */
  lemma DeletedRecordNotListed(docs: map<DocKey, Doc>, uid: string, id: string, snaps: seq<Snapshot>)
    requires IsQueryResult(docs - {DocKey(Media, id)}, Media, "userId", Str(uid), snaps)
    ensures forall i :: 0 <= i < |snaps| ==> snaps[i].id != id
  {
  }

  // ---------------------------------------------------------------------------
  // Filtering

  /** The three filter controls: search text, status (`null` or `''` for all)
      and minimum rating (`null` when reset). */
  datatype Criteria = Criteria(search: string, status: Option<string>, minRating: Option<int>)

  /** An empty search imposes nothing; otherwise the lowercased title must
      include the lowercased search. A record without a string title never matches. */
  predicate SearchOk(item: Doc, search: string, lower: char -> char) {
    search == "" ||
    (var t := Get(item, "title"); t.Some? && t.value.Str? && Contains(LowerCase(t.value.s, lower), LowerCase(search, lower)))
  }

  /** A null or empty status filter imposes nothing; otherwise the stored status must equal it. */
  predicate StatusOk(item: Doc, status: Option<string>) {
    status.None? || status.value == "" || Get(item, "status") == Some(Str(status.value))
  }

  /** A set rating filter, 0 included, keeps only numeric ratings at or above it. */
  predicate RatingOk(item: Doc, minRating: Option<int>) {
    minRating.None? || (var r := Get(item, "rating"); r.Some? && r.value.Num? && r.value.n >= minRating.value)
  }

  predicate Matches(item: Doc, c: Criteria, lower: char -> char) {
    SearchOk(item, c.search, lower) && StatusOk(item, c.status) && RatingOk(item, c.minRating)
  }

  /** `items.filter(...)`: the items satisfying every active criterion, in their original order. */
  function Filter(items: seq<Doc>, c: Criteria, lower: char -> char): (r: seq<Doc>)
    ensures IsSubsequence(r, items)
    ensures forall x :: x in r <==> x in items && Matches(x, c, lower)
  {
    if items == [] then []
    else if Matches(items[0], c, lower) then
      var rest := Filter(items[1..], c, lower);
      assert ([items[0]] + rest)[1..] == rest;
      [items[0]] + rest
    else Filter(items[1..], c, lower)
  }

  /** Filtering distributes over concatenation, so relative order is kept. */
  lemma {:induction false} FilterConcat(a: seq<Doc>, b: seq<Doc>, c: Criteria, lower: char -> char)
    ensures Filter(a + b, c, lower) == Filter(a, c, lower) + Filter(b, c, lower)
    decreases |a|
  {
    if a != [] {
      assert (a + b)[0] == a[0];
      assert (a + b)[1..] == a[1..] + b;
      FilterConcat(a[1..], b, c, lower);
    } else {
      assert a + b == b;
    }
  }

  /** When every item matches, the filter returns the list unchanged. */
  lemma {:induction false} FilterKeepsAllMatching(items: seq<Doc>, c: Criteria, lower: char -> char)
    requires forall x :: x in items ==> Matches(x, c, lower)
    ensures Filter(items, c, lower) == items
    decreases |items|
  {
    if items != [] {
      assert items[0] in items;
      assert forall x :: x in items[1..] ==> x in items;
      FilterKeepsAllMatching(items[1..], c, lower);
      assert [items[0]] + items[1..] == items;
    }
  }

  /** With no search, no status and no rating filter, every item is shown. */
  lemma NoCriteriaShowsAll(items: seq<Doc>, lower: char -> char)
    ensures Filter(items, Criteria("", None, None), lower) == items
  {
    FilterKeepsAllMatching(items, Criteria("", None, None), lower);
  }

  /** Filtering the filtered list changes nothing. */
  lemma {:induction false} FilterIdempotent(items: seq<Doc>, c: Criteria, lower: char -> char)
    ensures Filter(Filter(items, c, lower), c, lower) == Filter(items, c, lower)
  {
    var r := Filter(items, c, lower);
    FilterKeepsAllMatching(r, c, lower);
  }

  /** A status filter of `''` selects the same items as no status filter. */
  lemma {:induction false} EmptyStatusImposesNothing(items: seq<Doc>, search: string, minRating: Option<int>, lower: char -> char)
    ensures Filter(items, Criteria(search, Some(""), minRating), lower) == Filter(items, Criteria(search, None, minRating), lower)
    decreases |items|
  {
    if items != [] {
      EmptyStatusImposesNothing(items[1..], search, minRating, lower);
    }
  }

  /** What each kept item satisfies, criterion by criterion. */
  lemma KeptItemSatisfiesCriteria(items: seq<Doc>, c: Criteria, lower: char -> char, x: Doc)
    requires x in Filter(items, c, lower)
    ensures x in items
    ensures c.search != "" ==> "title" in x && x["title"].Str? && Contains(LowerCase(x["title"].s, lower), LowerCase(c.search, lower))
    ensures c.status.Some? && c.status.value != "" ==> "status" in x && x["status"] == Str(c.status.value)
    ensures c.minRating.Some? ==> "rating" in x && x["rating"].Num? && x["rating"].n >= c.minRating.value
  {
  }

  /** Any rating filter, even 0 from the slider, hides records without a numeric rating. */
  lemma RatingFilterHidesUnrated(items: seq<Doc>, search: string, status: Option<string>, min: int, lower: char -> char)
    ensures forall x: Doc :: x in Filter(items, Criteria(search, status, Some(min)), lower) ==> "rating" in x && x["rating"].Num?
  {
  }

  /** The status select: `e.target.value || null`. */
  function StatusFromSelect(selected: string): Option<string> {
    if selected == "" then None else Some(selected)
  }

  /** The value the status select displays: `filterStatus || ''`. */
  function SelectValue(status: Option<string>): string {
    if status.None? then "" else status.value
  }

  /** Choosing a value in the select and reading it back gives that value, and
      the select never stores an empty filter. */
  lemma StatusSelectRoundTrip(selected: string)
    ensures SelectValue(StatusFromSelect(selected)) == selected
    ensures StatusFromSelect(selected) != Some("")
  {
  }

  // ---------------------------------------------------------------------------
  // Status chips

  datatype ChipColor = Default | Info | Success | Error

  predicate IsKnownStatus(status: string) {
    status == "planned" || status == "watching" || status == "completed" || status == "dropped"
  }

  /** `statusLabel`: the Russian caption of a known status; any other status is shown as itself. */
  function StatusLabel(status: string): string {
    match status
    case "planned" => "Запланировано"
    case "watching" => "Смотрю"
    case "completed" => "Просмотрено"
    case "dropped" => "Брошено"
    case _ => status
  }

  /** `statusColor`: the chip colour of a status; unknown statuses are `default`. */
  function StatusColor(status: string): ChipColor {
    match status
    case "planned" => Default
    case "watching" => Info
    case "completed" => Success
    case "dropped" => Error
    case _ => Default
  }

  /** A label equals its status exactly when the status is not one of the four
      known ones, and the four known statuses get four different labels. */
  lemma StatusLabelFallback(status: string)
    ensures StatusLabel(status) == status <==> !IsKnownStatus(status)
    ensures forall a, b :: IsKnownStatus(a) && IsKnownStatus(b) && a != b ==> StatusLabel(a) != StatusLabel(b)
  {
  }

  /** Only a known status other than `planned` gets a colour besides `default`,
      and those three colours are all different. */
  lemma StatusColorFallback(status: string)
    ensures StatusColor(status) != Default <==> IsKnownStatus(status) && status != "planned"
    ensures forall a, b :: IsKnownStatus(a) && IsKnownStatus(b) && a != b && a != "planned" && b != "planned" ==> StatusColor(a) != StatusColor(b)
  {
  }

  // ---------------------------------------------------------------------------
  // The component's state and handlers

  class MediaList {
    const userId: string
    const db: Database
    var items: seq<Doc>
    var loading: bool
    var error: Option<ListError>
    var search: string
    var filterStatus: Option<string>
    var filterRating: Option<int>

    constructor (userId: string, db: Database)
      ensures this.userId == userId && this.db == db
      ensures items == [] && !loading && error == None
      ensures search == "" && filterStatus == None && filterRating == None
    {
      this.userId := userId;
      this.db := db;
      items := [];
      loading := false;
      error := None;
      search := "";
      filterStatus := None;
      filterRating := None;
    }

    /** The list the screen shows. */
    function FilteredItems(lower: char -> char): seq<Doc>
      reads this
    {
      Filter(items, Criteria(search, filterStatus, filterRating), lower)
    }

    method SetSearch(text: string)
      modifies this`search
      ensures search == text
    {
      search := text;
    }

    /** The status select's change handler. */
    method SelectStatus(selected: string)
      modifies this`filterStatus
      ensures filterStatus == StatusFromSelect(selected)
    {
      filterStatus := StatusFromSelect(selected);
    }

    /** The rating slider's change handler: any position, 0 included, sets the filter. */
    method SlideRating(v: int)
      modifies this`filterRating
      ensures filterRating == Some(v)
    {
      filterRating := Some(v);
    }

    /** The reset button beside the slider: no rating filter at all. */
    method ResetRating()
      modifies this`filterRating
      ensures filterRating == None
    {
      filterRating := None;
    }

    /** Closing the error snackbar: `setError(null)`. */
    method DismissError()
      modifies this`error
      ensures error == None
    {
      error := None;
    }

    /** `fetchItems`: on success the list is replaced by the user's records;
        on failure the list is kept and the error is set. */
    method FetchItems(ok: bool)
      modifies this`items, this`loading, this`error
      ensures !loading
      ensures ok ==> error == old(error) && ListsOwnItems(db.docs, userId, items)
      ensures !ok ==> items == old(items) && error == Some(FetchFailed)
    {
      loading := true;
      var r := db.Query(Media, "userId", Str(userId), ok);
      if r.Ok? {
        items := Listing(r.value);
      } else {
        error := Some(FetchFailed);
      }
      loading := false;
    }

    /** `handleAddMedia`: stores the new record, then refetches. */
    method HandleAddMedia(draft: Doc, now: string, addOk: bool, fetchOk: bool)
      modifies this`items, this`loading, this`error, db
      ensures !loading
      ensures addOk ==> exists id :: DocKey(Media, id) !in old(db.docs) && db.docs == old(db.docs)[DocKey(Media, id) := NewMediaDoc(draft, userId, now)]
      ensures !addOk ==> db.docs == old(db.docs) && items == old(items) && error == Some(AddFailed)
      ensures addOk && fetchOk ==> error == old(error) && ListsOwnItems(db.docs, userId, items)
      ensures addOk && !fetchOk ==> items == old(items) && error == Some(FetchFailed)
    {
      loading := true;
      var r := db.AddDoc(Media, NewMediaDoc(draft, userId, now), addOk);
      if r.Ok? {
        FetchItems(fetchOk);
      } else {
        error := Some(AddFailed);
      }
      loading := false;
    }

    /** `deleteItem`: removes that one record from the store, then refetches. */
    method DeleteItem(id: string, deleteOk: bool, fetchOk: bool)
      modifies this`items, this`loading, this`error, db
      ensures !loading
      ensures db.docs == if deleteOk then old(db.docs) - {DocKey(Media, id)} else old(db.docs)
      ensures !deleteOk ==> items == old(items) && error == Some(DeleteFailed)
      ensures deleteOk && fetchOk ==> error == old(error) && ListsOwnItems(db.docs, userId, items)
      ensures deleteOk && !fetchOk ==> items == old(items) && error == Some(FetchFailed)
    {
      loading := true;
      var r := db.DeleteDoc(DocKey(Media, id), deleteOk);
      if r == Done {
        FetchItems(fetchOk);
      } else {
        error := Some(DeleteFailed);
      }
      loading := false;
    }
  }
}

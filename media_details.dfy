/** The record detail screen: one media record kept locally, its rating,
    status, watched date and favourite controls, and its comment log. Every
    handler writes to the store first and changes the local copy only when the
    write succeeded. */
module MediaDetails {
  import opened Common
  import opened Text
  import opened Firestore

  /** Which failure the screen reports. */
  datatype DetailsError =
    | NotFound
    | LoadFailed
    | CommentAddFailed
    | RatingSaveFailed
    | UpdateFailed
    | CommentEditFailed
    | CommentDeleteFailed

  // ---------------------------------------------------------------------------
  // Comments

  /** A new comment: `{ text, created }`. */
  function NewComment(text: string, created: string): Value {
    Obj(map["text" := Str(text), "created" := Str(created)])
  }

  /** `{ ...c, text }`: the comment with its text replaced and every other field kept. */
  function WithText(c: Value, text: string): (r: Value)
    ensures r.Obj? && "text" in r.fields && r.fields["text"] == Str(text)
    ensures c.Obj? ==> forall f :: f in c.fields && f != "text" ==> f in r.fields && r.fields[f] == c.fields[f]
  {
    Obj((if c.Obj? then c.fields else map[])["text" := Str(text)])
  }

  /** `comments.map((c, idx) => idx === index ? { ...c, text } : c)`. */
  function EditAt(comments: seq<Value>, index: int, text: string): (r: seq<Value>)
    ensures |r| == |comments|
  {
    seq(|comments|, i requires 0 <= i < |comments| => if i == index then WithText(comments[i], text) else comments[i])
  }

  /** `comments.filter((_, i) => i !== index)`, walking the list from position `from`. */
  function DropIndexFrom(comments: seq<Value>, index: int, from: int): seq<Value>
    decreases |comments|
  {
    if comments == [] then []
    else if from == index then DropIndexFrom(comments[1..], index, from + 1)
    else [comments[0]] + DropIndexFrom(comments[1..], index, from + 1)
  }

  function RemoveAt(comments: seq<Value>, index: int): seq<Value> {
    DropIndexFrom(comments, index, 0)
  }

  lemma {:induction false} DropIndexFromSpec(comments: seq<Value>, index: int, from: int)
    ensures from <= index < from + |comments| ==>
      DropIndexFrom(comments, index, from) == comments[..index - from] + comments[index - from + 1..]
    ensures !(from <= index < from + |comments|) ==> DropIndexFrom(comments, index, from) == comments
    decreases |comments|
  {
    if comments != [] {
      DropIndexFromSpec(comments[1..], index, from + 1);
      if from == index {
        assert comments[..0] + comments[1..] == comments[1..];
      } else if from < index < from + |comments| {
        calc {
          DropIndexFrom(comments, index, from);
          [comments[0]] + (comments[1..][..index - from - 1] + comments[1..][index - from..]);
          { assert comments[1..][..index - from - 1] == comments[1..index - from];
            assert comments[1..][index - from..] == comments[index - from + 1..]; }
          [comments[0]] + comments[1..index - from] + comments[index - from + 1..];
          { assert [comments[0]] + comments[1..index - from] == comments[..index - from]; }
          comments[..index - from] + comments[index - from + 1..];
        }
      } else {
        assert [comments[0]] + comments[1..] == comments;
      }
    }
  }

  /** Deleting by position removes exactly the comment at `index` and keeps
      the order of the rest; an index outside the list deletes nothing. */
  lemma RemoveAtSpec(comments: seq<Value>, index: int)
    ensures 0 <= index < |comments| ==> RemoveAt(comments, index) == comments[..index] + comments[index + 1..]
    ensures 0 <= index < |comments| ==> |RemoveAt(comments, index)| == |comments| - 1
    ensures !(0 <= index < |comments|) ==> RemoveAt(comments, index) == comments
  {
    DropIndexFromSpec(comments, index, 0);
  }

  /** Editing by position replaces only the text of the comment at `index`,
      keeping its `created` and every other comment; an index outside the list
      changes nothing. */
  lemma EditAtSpec(comments: seq<Value>, index: int, text: string)
    ensures forall i :: 0 <= i < |comments| && i != index ==> EditAt(comments, index, text)[i] == comments[i]
    ensures 0 <= index < |comments| ==>
      var e := EditAt(comments, index, text)[index];
      && e.Obj? && e.fields["text"] == Str(text)
      && (comments[index].Obj? && "created" in comments[index].fields ==>
            "created" in e.fields && e.fields["created"] == comments[index].fields["created"])
    ensures !(0 <= index < |comments|) ==> EditAt(comments, index, text) == comments
  {
  }

  /** Editing the same position twice leaves only the second text. */
  lemma EditAtTwice(comments: seq<Value>, index: int, first: string, second: string)
    ensures EditAt(EditAt(comments, index, first), index, second) == EditAt(comments, index, second)
  {
    var once := EditAt(comments, index, first);
    forall i | 0 <= i < |comments| && i == index
      ensures WithText(once[i], second) == WithText(comments[i], second)
    {
      var base := if comments[i].Obj? then comments[i].fields else map[];
      assert once[i].fields == base["text" := Str(first)];
      assert once[i].fields["text" := Str(second)] == base["text" := Str(second)];
    }
  }

  /** Adding a comment to an empty log, editing it and deleting it leaves the log empty. */
  lemma AddEditDeleteLeavesEmpty(text: string, created: string, newText: string)
    ensures RemoveAt(EditAt([NewComment(text, created)], 0, newText), 0) == []
  {
    RemoveAtSpec(EditAt([NewComment(text, created)], 0, newText), 0);
  }

  // ---------------------------------------------------------------------------
  // The loaded record

  /** The local item: `{ ...data, id: snap.id }`. */
  function LoadedItem(id: string, data: Doc): (r: Doc)
    ensures "id" in r && r["id"] == Str(id)
    ensures forall f :: f != "id" ==> (f in r <==> f in data) && (f in r ==> r[f] == data[f])
  {
    data["id" := Str(id)]
  }

  /** `doc(db, 'media', item.id)`: None when `item.id` is not a string, where the source throws. */
  function ItemKey(item: Doc): Option<DocKey> {
    if "id" in item && item["id"].Str? then Some(DocKey(Media, item["id"].s)) else None
  }

  /** The local copy after a successful write of the whole comment list. */
  function WithComments(item: Doc, comments: seq<Value>): Doc {
    item["comments" := Arr(comments)]
  }

  /** `{ ...item, rating: value || undefined }`: a null or 0 rating is dropped from the local copy. */
  function WithRating(item: Doc, value: Option<int>): (r: Doc)
    ensures value.None? || value == Some(0) ==> "rating" !in r
    ensures value.Some? && value.value != 0 ==> "rating" in r && r["rating"] == Num(value.value)
    ensures forall f :: f != "rating" ==> (f in r <==> f in item) && (f in r ==> r[f] == item[f])
  {
    if value.None? || value.value == 0 then item - {"rating"} else item["rating" := Num(value.value)]
  }

  /** The rating as `updateDoc` stores it: `null` stays `null`. */
  function RatingValue(value: Option<int>): Value {
    if value.None? then Null else Num(value.value)
  }

  class MediaDetails {
    const id: string
    const db: Database
    var item: Option<Doc>
    var loading: bool
    var error: Option<DetailsError>
    var comment: string
    var rating: Value
    var saving: bool
    var status: Value
    var watchedDate: Value
    var favorite: Value
    var editIndex: Option<int>
    var editText: string

    /** The initial state: nothing loaded yet, controls at their defaults. */
    constructor (id: string, db: Database)
      ensures this.id == id && this.db == db
      ensures item == None && loading && error == None && comment == "" && rating == Null && !saving
      ensures status == Str("planned") && watchedDate == Str("") && favorite == Bool(false)
      ensures editIndex == None && editText == ""
    {
      this.id := id;
      this.db := db;
      item := None;
      loading := true;
      error := None;
      comment := "";
      rating := Null;
      saving := false;
      status := Str("planned");
      watchedDate := Str("");
      favorite := Bool(false);
      editIndex := None;
      editText := "";
    }

    /** `fetchItem`: loads the record and sets the controls from it, defaulting
        status to `planned`, the date to `''`, favourite to false and a falsy rating to null. */
    method FetchItem(ok: bool)
      modifies this`item, this`loading, this`error, this`rating, this`status, this`watchedDate, this`favorite
      ensures !loading
      ensures !ok ==> error == Some(LoadFailed) && item == old(item)
      ensures ok && DocKey(Media, id) !in db.docs ==> error == Some(NotFound) && item == old(item)
      ensures ok && DocKey(Media, id) in db.docs ==>
        var data := db.docs[DocKey(Media, id)];
        && item == Some(LoadedItem(id, data)) && error == old(error)
        && rating == FieldOr(data, "rating", Null)
        && status == FieldOr(data, "status", Str("planned"))
        && watchedDate == FieldOr(data, "watchedDate", Str(""))
        && favorite == FieldOr(data, "favorite", Bool(false))
      ensures !(ok && DocKey(Media, id) in db.docs) ==>
        rating == old(rating) && status == old(status) && watchedDate == old(watchedDate) && favorite == old(favorite)
    {
      loading := true;
      var r := db.GetDoc(DocKey(Media, id), ok);
      match r {
        case Ok(Some(data)) =>
          item := Some(LoadedItem(id, data));
          rating := FieldOr(data, "rating", Null);
          status := FieldOr(data, "status", Str("planned"));
          watchedDate := FieldOr(data, "watchedDate", Str(""));
          favorite := FieldOr(data, "favorite", Bool(false));
        case Ok(None) =>
          error := Some(NotFound);
        case Err =>
          error := Some(LoadFailed);
      }
      loading := false;
    }

    method SetCommentInput(text: string)
      modifies this`comment
      ensures comment == text
    {
      comment := text;
    }

    method SetEditText(text: string)
      modifies this`editText
      ensures editText == text
    {
      editText := text;
    }

    /** `handleAddComment`: appends the trimmed comment remotely, then locally, and clears the input. */
    method HandleAddComment(now: string, ok: bool)
      modifies this`item, this`comment, this`error, this`saving, db
      ensures Trim(old(comment)) == "" || old(item) == None ==>
        item == old(item) && comment == old(comment) && error == old(error) && saving == old(saving) && db.docs == old(db.docs)
      ensures Trim(old(comment)) != "" && old(item) != None ==> !saving
      ensures Trim(old(comment)) != "" && old(item) != None ==>
        var c := NewComment(Trim(old(comment)), now);
        var key := ItemKey(old(item).value);
        if key.Some? && ok && key.value in old(db.docs) then
          && db.docs == old(db.docs)[key.value := old(db.docs)[key.value]["comments" := Arr(ArrayField(old(db.docs)[key.value], "comments") + [c])]]
          && item == Some(WithComments(old(item).value, ArrayField(old(item).value, "comments") + [c]))
          && comment == "" && error == old(error)
        else
          db.docs == old(db.docs) && item == old(item) && comment == old(comment) && error == Some(CommentAddFailed)
    {
      var text := Trim(comment);
      if text == "" || item == None {
        return;
      }
      saving := true;
      var key := ItemKey(item.value);
      if key == None {
        error := Some(CommentAddFailed);
      } else {
        var c := NewComment(text, now);
        var r := db.ArrayUnion(key.value, "comments", c, ok);
        if r == Done {
          item := Some(WithComments(item.value, ArrayField(item.value, "comments") + [c]));
          comment := "";
        } else {
          error := Some(CommentAddFailed);
        }
      }
      saving := false;
    }

    /** `handleSetRating`: stores the rating (null allowed); locally a null or 0 rating is dropped. */
    method HandleSetRating(value: Option<int>, ok: bool)
      modifies this`item, this`rating, this`error, this`saving, db
      ensures old(item) == None ==>
        item == old(item) && rating == old(rating) && error == old(error) && saving == old(saving) && db.docs == old(db.docs)
      ensures old(item) != None ==> !saving
      ensures old(item) != None ==>
        var key := ItemKey(old(item).value);
        if key.Some? && ok && key.value in old(db.docs) then
          && db.docs == old(db.docs)[key.value := old(db.docs)[key.value]["rating" := RatingValue(value)]]
          && item == Some(WithRating(old(item).value, value))
          && rating == RatingValue(value) && error == old(error)
        else
          db.docs == old(db.docs) && item == old(item) && rating == old(rating) && error == Some(RatingSaveFailed)
    {
      if item == None {
        return;
      }
      saving := true;
      var key := ItemKey(item.value);
      if key == None {
        error := Some(RatingSaveFailed);
      } else {
        ghost var before := db.docs;
        var r := db.UpdateDoc(key.value, map["rating" := RatingValue(value)], ok);
        if r == Done {
          assert before[key.value] + map["rating" := RatingValue(value)] == before[key.value]["rating" := RatingValue(value)];
        }
        if r == Done {
          item := Some(WithRating(item.value, value));
          rating := RatingValue(value);
        } else {
          error := Some(RatingSaveFailed);
        }
      }
      saving := false;
    }

    /** `handleUpdateField`: writes one field, then mirrors it into the local copy
        and into the status, watched-date or favourite control it belongs to. */
    method HandleUpdateField(field: string, value: Value, ok: bool)
      modifies this`item, this`status, this`watchedDate, this`favorite, this`error, this`saving, db
      ensures old(item) == None ==>
        && item == old(item) && status == old(status) && watchedDate == old(watchedDate) && favorite == old(favorite)
        && error == old(error) && saving == old(saving) && db.docs == old(db.docs)
      ensures old(item) != None ==> !saving
      ensures old(item) != None ==>
        var key := ItemKey(old(item).value);
        if key.Some? && ok && key.value in old(db.docs) then
          && db.docs == old(db.docs)[key.value := old(db.docs)[key.value][field := value]]
          && item == Some(old(item).value[field := value])
          && status == (if field == "status" then value else old(status))
          && watchedDate == (if field == "watchedDate" then value else old(watchedDate))
          && favorite == (if field == "favorite" then value else old(favorite))
          && error == old(error)
        else
          && db.docs == old(db.docs) && item == old(item) && error == Some(UpdateFailed)
          && status == old(status) && watchedDate == old(watchedDate) && favorite == old(favorite)
    {
      if item == None {
        return;
      }
      saving := true;
      var key := ItemKey(item.value);
      if key == None {
        error := Some(UpdateFailed);
      } else {
        ghost var before := db.docs;
        var r := db.UpdateDoc(key.value, map[field := value], ok);
        if r == Done {
          assert before[key.value] + map[field := value] == before[key.value][field := value];
        }
        if r == Done {
          item := Some(item.value[field := value]);
          if field == "status" {
            status := value;
          }
          if field == "watchedDate" {
            watchedDate := value;
          }
          if field == "favorite" {
            favorite := value;
          }
        } else {
          error := Some(UpdateFailed);
        }
      }
      saving := false;
    }

    /** `handleEditComment`: opens the editor on one comment. */
    method HandleEditComment(index: int, text: string)
      modifies this`editIndex, this`editText
      ensures editIndex == Some(index) && editText == text
    {
      editIndex := Some(index);
      editText := text;
    }

    /** The editor's cancel button. */
    method CancelEdit()
      modifies this`editIndex, this`editText
      ensures editIndex == None && editText == ""
    {
      editIndex := None;
      editText := "";
    }

    /** `handleSaveEdit`: rewrites the whole comment list with the edited text
        at `editIndex`; the editor closes only when the write succeeded. */
    method HandleSaveEdit(ok: bool)
      modifies this`item, this`editIndex, this`editText, this`error, this`saving, db
      ensures old(item) == None || old(editIndex) == None ==>
        && item == old(item) && editIndex == old(editIndex) && editText == old(editText)
        && error == old(error) && saving == old(saving) && db.docs == old(db.docs)
      ensures old(item) != None && old(editIndex) != None ==> !saving
      ensures old(item) != None && old(editIndex) != None ==>
        var updated := EditAt(ArrayField(old(item).value, "comments"), old(editIndex).value, old(editText));
        var key := ItemKey(old(item).value);
        if key.Some? && ok && key.value in old(db.docs) then
          && db.docs == old(db.docs)[key.value := old(db.docs)[key.value]["comments" := Arr(updated)]]
          && item == Some(WithComments(old(item).value, updated))
          && editIndex == None && editText == "" && error == old(error)
        else
          && db.docs == old(db.docs) && item == old(item) && error == Some(CommentEditFailed)
          && editIndex == old(editIndex) && editText == old(editText)
    {
      if item == None || editIndex == None {
        return;
      }
      saving := true;
      var updated := EditAt(ArrayField(item.value, "comments"), editIndex.value, editText);
      var key := ItemKey(item.value);
      if key == None {
        error := Some(CommentEditFailed);
      } else {
        ghost var before := db.docs;
        var r := db.UpdateDoc(key.value, map["comments" := Arr(updated)], ok);
        if r == Done {
          assert before[key.value] + map["comments" := Arr(updated)] == before[key.value]["comments" := Arr(updated)];
        }
        if r == Done {
          item := Some(WithComments(item.value, updated));
          editIndex := None;
          editText := "";
        } else {
          error := Some(CommentEditFailed);
        }
      }
      saving := false;
    }

    /** `handleDeleteComment`: rewrites the whole comment list without position `index`. */
    method HandleDeleteComment(index: int, ok: bool)
      modifies this`item, this`error, this`saving, db
      ensures old(item) == None ==>
        item == old(item) && error == old(error) && saving == old(saving) && db.docs == old(db.docs)
      ensures old(item) != None ==> !saving
      ensures old(item) != None ==>
        var updated := RemoveAt(ArrayField(old(item).value, "comments"), index);
        var key := ItemKey(old(item).value);
        if key.Some? && ok && key.value in old(db.docs) then
          && db.docs == old(db.docs)[key.value := old(db.docs)[key.value]["comments" := Arr(updated)]]
          && item == Some(WithComments(old(item).value, updated))
          && error == old(error)
        else
          db.docs == old(db.docs) && item == old(item) && error == Some(CommentDeleteFailed)
    {
      if item == None {
        return;
      }
      saving := true;
      var updated := RemoveAt(ArrayField(item.value, "comments"), index);
      var key := ItemKey(item.value);
      if key == None {
        error := Some(CommentDeleteFailed);
      } else {
        ghost var before := db.docs;
        var r := db.UpdateDoc(key.value, map["comments" := Arr(updated)], ok);
        if r == Done {
          assert before[key.value] + map["comments" := Arr(updated)] == before[key.value]["comments" := Arr(updated)];
        }
        if r == Done {
          item := Some(WithComments(item.value, updated));
        } else {
          error := Some(CommentDeleteFailed);
        }
      }
      saving := false;
    }
  }
}

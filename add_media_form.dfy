/** The form for a new media record: title, description, image URL, rating,
    a duplicate-free list of tags and the record's type. */
module AddMediaForm {
  import opened Common

  datatype MediaType = Movie | Game | Book

  /** `MediaFormData`. */
  datatype FormData = FormData(
    title: string,
    description: string,
    rating: int,
    tags: seq<string>,
    imageUrl: string,
    mediaType: MediaType)

  /** The form's starting contents for records of type `t`. */
  function InitialForm(t: MediaType): FormData {
    FormData("", "", 0, [], "", t)
  }

  /** The guard of `handleAddTag`: the tag is non-empty and not yet present. */
  predicate CanAddTag(tags: seq<string>, tag: string) {
    tag != "" && tag !in tags
  }

  /** The tag list after `handleAddTag`: a non-empty tag not yet present is appended. */
  function WithTag(tags: seq<string>, tag: string): (r: seq<string>)
    ensures tags <= r && |r| <= |tags| + 1
    ensures forall x :: x in r <==> x in tags || (x == tag && tag != "")
  {
    if CanAddTag(tags, tag) then tags + [tag] else tags
  }

  /** `tags.filter(tag => tag !== tagToRemove)`. */
  function WithoutTag(tags: seq<string>, tag: string): (r: seq<string>)
    ensures IsSubsequence(r, tags)
    ensures forall x :: x in r <==> x in tags && x != tag
  {
    if tags == [] then []
    else if tags[0] == tag then
      var rest := WithoutTag(tags[1..], tag);
      rest
    else
      var rest := WithoutTag(tags[1..], tag);
      assert [tags[0]] + rest != [] && ([tags[0]] + rest)[1..] == rest;
      [tags[0]] + rest
  }

  /** Removing a tag that is not present changes nothing. */
  lemma {:induction false} WithoutAbsentTag(tags: seq<string>, tag: string)
    requires tag !in tags
    ensures WithoutTag(tags, tag) == tags
    decreases |tags|
  {
    if tags != [] {
      WithoutAbsentTag(tags[1..], tag);
      assert [tags[0]] + tags[1..] == tags;
    }
  }

  /** Removal works element by element across a concatenation. */
  lemma {:induction false} WithoutTagConcat(a: seq<string>, b: seq<string>, tag: string)
    ensures WithoutTag(a + b, tag) == WithoutTag(a, tag) + WithoutTag(b, tag)
    decreases |a|
  {
    if a == [] {
      assert a + b == b;
    } else {
      assert (a + b)[0] == a[0];
      assert (a + b)[1..] == a[1..] + b;
      WithoutTagConcat(a[1..], b, tag);
    }
  }

  /** Appending keeps the list duplicate-free. */
  lemma WithTagKeepsDistinct(tags: seq<string>, tag: string)
    requires NoDuplicates(tags)
    ensures NoDuplicates(WithTag(tags, tag))
  {
  }

  /** Removal keeps the list duplicate-free. */
  lemma {:induction false} WithoutTagKeepsDistinct(tags: seq<string>, tag: string)
    requires NoDuplicates(tags)
    ensures NoDuplicates(WithoutTag(tags, tag))
    decreases |tags|
  {
    if tags != [] {
      var tail := tags[1..];
      assert NoDuplicates(tail) by {
        forall i, j | 0 <= i < j < |tail| ensures tail[i] != tail[j] {
          assert tail[i] == tags[i + 1] && tail[j] == tags[j + 1];
        }
      }
      WithoutTagKeepsDistinct(tail, tag);
      if tags[0] != tag {
        var rest := WithoutTag(tail, tag);
        assert tags[0] !in tail by {
          forall i | 0 <= i < |tail| ensures tail[i] != tags[0] {
            assert tail[i] == tags[i + 1];
          }
        }
        assert tags[0] !in rest;
        var r := [tags[0]] + rest;
        forall i, j | 0 <= i < j < |r| ensures r[i] != r[j] {
          if i == 0 {
            assert r[j] == rest[j - 1] && r[j] in rest;
          } else {
            assert r[i] == rest[i - 1] && r[j] == rest[j - 1];
          }
        }
      }
    }
  }

  /** Adding a tag a second time is a no-op. */
  lemma WithTagIdempotent(tags: seq<string>, tag: string)
    ensures WithTag(WithTag(tags, tag), tag) == WithTag(tags, tag)
  {
  }

  /** After removal the tag is gone. */
  lemma WithoutTagRemovesAll(tags: seq<string>, tag: string)
    ensures tag !in WithoutTag(tags, tag)
    ensures |WithoutTag(tags, tag)| <= |tags|
  {
    SubsequenceElements(WithoutTag(tags, tag), tags);
  }

  /** Adding a fresh tag and then removing it restores the list. */
  lemma AddThenRemoveRestores(tags: seq<string>, tag: string)
    requires tag != "" && tag !in tags
    ensures WithoutTag(WithTag(tags, tag), tag) == tags
  {
    WithoutTagConcat(tags, [tag], tag);
    WithoutAbsentTag(tags, tag);
    assert WithoutTag([tag], tag) == [];
  }

  /** One edit of the tag list. */
  datatype TagOp = Add(tag: string) | Remove(tag: string)

  function ApplyOps(tags: seq<string>, ops: seq<TagOp>): seq<string>
    decreases |ops|
  {
    if ops == [] then tags
    else
      var next := match ops[0] {
        case Add(t) => WithTag(tags, t)
        case Remove(t) => WithoutTag(tags, t)
      };
      ApplyOps(next, ops[1..])
  }

  /** From a duplicate-free list, and in particular from the empty one the form
      starts with, any run of adds and removes leaves the list duplicate-free. */
  lemma {:induction false} OpsKeepDistinct(tags: seq<string>, ops: seq<TagOp>)
    requires NoDuplicates(tags)
    ensures NoDuplicates(ApplyOps(tags, ops))
    decreases |ops|
  {
    if ops != [] {
      match ops[0] {
        case Add(t) => WithTagKeepsDistinct(tags, t); OpsKeepDistinct(WithTag(tags, t), ops[1..]);
        case Remove(t) => WithoutTagKeepsDistinct(tags, t); OpsKeepDistinct(WithoutTag(tags, t), ops[1..]);
      }
    }
  }

  /** The form component's state. */
  class Form {
    var formData: FormData
    var currentTag: string

    ghost predicate Valid()
      reads this
    {
      NoDuplicates(formData.tags)
    }

    /** The initial form: empty texts, rating 0, no tags, the given type. */
    constructor (t: MediaType)
      ensures formData == InitialForm(t) && currentTag == ""
      ensures Valid()
    {
      formData := InitialForm(t);
      currentTag := "";
    }

    method SetTitle(title: string)
      modifies this`formData
      ensures formData == old(formData).(title := title)
    {
      formData := formData.(title := title);
    }

    method SetDescription(description: string)
      modifies this`formData
      ensures formData == old(formData).(description := description)
    {
      formData := formData.(description := description);
    }

    method SetImageUrl(imageUrl: string)
      modifies this`formData
      ensures formData == old(formData).(imageUrl := imageUrl)
    {
      formData := formData.(imageUrl := imageUrl);
    }

    method SetCurrentTag(tag: string)
      modifies this`currentTag
      ensures currentTag == tag
    {
      currentTag := tag;
    }

    /** The rating control's change handler: a cleared rating (null) stores 0. */
    method SetRating(newValue: Option<int>)
      modifies this`formData
      ensures formData == old(formData).(rating := if newValue.Some? then newValue.value else 0)
    {
      formData := formData.(rating := if newValue.Some? && newValue.value != 0 then newValue.value else 0);
    }

    /** `handleAddTag`: appends the current tag and clears the input exactly when
        the tag is non-empty and not yet present; otherwise nothing changes. */
    method AddTag()
      requires Valid()
      modifies this`formData, this`currentTag
      ensures Valid()
      ensures CanAddTag(old(formData.tags), old(currentTag)) ==>
        formData == old(formData).(tags := old(formData.tags) + [old(currentTag)]) && currentTag == ""
      ensures !CanAddTag(old(formData.tags), old(currentTag)) ==>
        formData == old(formData) && currentTag == old(currentTag)
    {
      if CanAddTag(formData.tags, currentTag) {
        formData := formData.(tags := formData.tags + [currentTag]);
        currentTag := "";
      }
    }

    /** `handleRemoveTag`: drops every occurrence of the tag, other fields unchanged. */
    method RemoveTag(tag: string)
      requires Valid()
      modifies this`formData
      ensures Valid()
      ensures formData == old(formData).(tags := WithoutTag(old(formData.tags), tag))
      ensures tag !in formData.tags
    {
      WithoutTagKeepsDistinct(formData.tags, tag);
      WithoutTagRemovesAll(formData.tags, tag);
      formData := formData.(tags := WithoutTag(formData.tags, tag));
    }

    /** `handleSubmit`: hands the form's contents to the caller as they are. */
    method Submit() returns (submitted: FormData)
      ensures submitted == formData
    {
      submitted := formData;
    }
  }
}

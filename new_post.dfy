/** The post form's tag editor: the `tags` list and the `tagInput` field,
    changed by `addTag` and `removeTag`. */
module NewPost {
  import opened Lists
  import opened Text

  /** What the editor keeps true of `tags`: every tag is non-empty and
      trimmed, and no tag occurs twice. */
  predicate ValidTags(tags: seq<string>)
  {
    NoDuplicates(tags) && forall t :: t in tags ==> t != "" && Trim(t) == t
  }

  /** Whether `addTag` accepts the current input: its trimmed form is
      non-empty and not already a tag. */
  predicate Accepts(tags: seq<string>, tagInput: string)
  {
    Trim(tagInput) != "" && Trim(tagInput) !in tags
  }

  /** Adding an accepted input keeps the tag list valid. */
  lemma AddKeepsValid(tags: seq<string>, tagInput: string)
    requires ValidTags(tags) && Accepts(tags, tagInput)
    ensures ValidTags(tags + [Trim(tagInput)])
  {
    TrimIdempotent(tagInput);
    AppendNoDuplicates(tags, Trim(tagInput));
  }

  /** Removing any tag keeps the tag list valid. */
  lemma RemoveKeepsValid(tags: seq<string>, tag: string)
    requires ValidTags(tags)
    ensures ValidTags(RemoveAll(tags, tag))
  {
    RemoveNoDuplicates(tags, tag);
  }

  /** Removing the tag that was just added gives back the tags as they were. */
  lemma AddThenRemove(tags: seq<string>, tagInput: string)
    requires Accepts(tags, tagInput)
    ensures RemoveAll(tags + [Trim(tagInput)], Trim(tagInput)) == tags
  {
    RemoveAppended(tags, Trim(tagInput));
  }

  class TagEditor {
    var tags: seq<string>
    var tagInput: string

    ghost predicate Valid()
      reads this
    {
      ValidTags(tags)
    }

    /** `useState<string[]>([])` and `useState('')`. */
    constructor ()
      ensures Valid() && tags == [] && tagInput == ""
    {
      tags := [];
      tagInput := "";
    }

    /** The input's `onChange`. */
    method SetTagInput(value: string)
      requires Valid()
      modifies this
      ensures Valid() && tagInput == value && tags == old(tags)
    {
      tagInput := value;
    }

    /** `addTag`. `added` reports whether the guard let the input through. */
    method AddTag() returns (added: bool)
      requires Valid()
      modifies this
      ensures Valid()
      ensures added <==> Accepts(old(tags), old(tagInput))
      ensures added ==> tags == old(tags) + [Trim(old(tagInput))] && tagInput == ""
      ensures !added ==> tags == old(tags) && tagInput == old(tagInput)
    {
      var trimmed := Trim(tagInput);
      added := trimmed != "" && trimmed !in tags;
      if added {
        AddKeepsValid(tags, tagInput);
        tags := tags + [trimmed];
        tagInput := "";
      }
    }

    /** `removeTag(tag)`: every other tag stays, in the same order. */
    method RemoveTag(tag: string)
      requires Valid()
      modifies this
      ensures Valid()
      ensures tags == RemoveAll(old(tags), tag) && tagInput == old(tagInput)
      ensures tag !in tags
      ensures tag !in old(tags) ==> tags == old(tags)
      ensures forall i :: 0 <= i < |old(tags)| && old(tags)[i] == tag ==> tags == old(tags)[..i] + old(tags)[i + 1..]
    {
      RemoveKeepsValid(tags, tag);
      if tag !in tags {
        RemoveAbsent(tags, tag);
      }
      forall i | 0 <= i < |tags| && tags[i] == tag
        ensures RemoveAll(tags, tag) == tags[..i] + tags[i + 1..]
      {
        RemoveAt(tags, i);
      }
      tags := RemoveAll(tags, tag);
    }
  }

  /** A successful `addTag` followed by `removeTag` of the same tag leaves
      the tag list as it was before. */
  method AddThenRemoveRestores(editor: TagEditor)
    requires editor.Valid()
    modifies editor
    ensures editor.Valid()
    ensures editor.tags == old(editor.tags)
  {
    var tag := Trim(editor.tagInput);
    var added := editor.AddTag();
    if added {
      AddThenRemove(old(editor.tags), old(editor.tagInput));
      editor.RemoveTag(tag);
    }
  }
}

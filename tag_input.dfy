/**
 * The tag editor of the recipe form (components/recipes/tag-input.tsx). The
 * component owns the text typed so far; the tag list belongs to its parent
 * and changes only through `onChange`, which each handler either calls with
 * a new list or not at all.
 */
module TagInput {
  import opened Wrappers
  import opened Seqs
  import opened Search

  /** What a handler does: the list it passes to `onChange`, if any, and the input text afterwards. */
  datatype Effect = Effect(onChange: Option<seq<string>>, input: string)

  /**
   * `addTag`: the trimmed text is ignored when blank (the input keeps its
   * text), cleared without a change when already a tag, and otherwise
   * appended.
   */
  function AddTag(tags: seq<string>, input: string, tag: string): (e: Effect)
    ensures AllWhitespace(tag) ==> e == Effect(None, input)
    ensures !AllWhitespace(tag) && Trim(tag) in tags ==> e == Effect(None, "")
    ensures !AllWhitespace(tag) && Trim(tag) !in tags ==> e == Effect(Some(tags + [Trim(tag)]), "")
  {
    TrimBlank(tag);
    var trimmed := Trim(tag);
    if trimmed == "" then Effect(None, input)
    else if trimmed in tags then Effect(None, "")
    else Effect(Some(tags + [trimmed]), "")
  }

  /** A tag list that is free of duplicates stays so, and every added tag is non-blank and trimmed. */
  lemma AddTagKeepsDistinct(tags: seq<string>, input: string, tag: string)
    requires NoDuplicates(tags)
    ensures var e := AddTag(tags, input, tag);
      e.onChange.Some? ==>
        && NoDuplicates(e.onChange.value)
        && var added := e.onChange.value[|tags|];
           added != "" && Trim(added) == added
  {
    var t := Trim(tag);
    if !AllWhitespace(tag) && t !in tags {
      TrimBlank(tag);
      TrimIdempotent(tag);
      var r := tags + [t];
      assert AddTag(tags, input, tag).onChange == Some(r);
      forall i, j | 0 <= i < j < |r| ensures r[i] != r[j] {
        assert r[i] == tags[i];
        if j < |tags| {
          assert r[j] == tags[j];
        }
      }
    }
  }

  /** `removeTag`: the list without the tag at `index`, passed to `onChange`. */
  function RemoveTag(tags: seq<string>, input: string, index: int): (e: Effect)
    ensures e.input == input && e.onChange.Some?
    ensures 0 <= index < |tags| ==>
      && |e.onChange.value| == |tags| - 1
      && forall j :: 0 <= j < |tags| - 1 ==>
           e.onChange.value[j] == (if j < index then tags[j] else tags[j + 1])
    ensures !(0 <= index < |tags|) ==> e.onChange == Some(tags)
  {
    Effect(Some(FilterIndex(tags, index)), input)
  }

  /** `handleKeyDown`: Enter and the comma add the typed tag; other keys do nothing here. */
  function HandleKeyDown(tags: seq<string>, input: string, key: string): (e: Effect)
    ensures key != "Enter" && key != "," ==> e == Effect(None, input)
    ensures key == "Enter" || key == "," ==> e == AddTag(tags, input, input)
  {
    if key == "Enter" || key == "," then AddTag(tags, input, input)
    else Effect(None, input)
  }
}

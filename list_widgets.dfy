/**
 * The list-item widgets of the kivy screens (instrumentino/screens/list_widgets.py):
 * how a composite list item collects the widget descriptions of its class
 * chain, and the duration field that restores its last good text when
 * characters were deleted and otherwise edits `hh:mm:ss.mmm` in place.
 */
module ListWidgets {
  import opened Text
  import opened InputFilters

  /**
   * `add_cls_dicts`: the keyword dictionary with `added` put in front of the
   * `cls_dicts` it already holds (none when the key is missing).
   */
  function AddClsDicts<D>(added: seq<D>, kwargs: map<string, seq<D>>): (r: map<string, seq<D>>)
    ensures r.Keys == kwargs.Keys + {"cls_dicts"}
    ensures forall k :: k in kwargs && k != "cls_dicts" ==> r[k] == kwargs[k]
    ensures |r["cls_dicts"]| >= |added| && r["cls_dicts"][..|added|] == added
    ensures "cls_dicts" in kwargs ==> r["cls_dicts"][|added|..] == kwargs["cls_dicts"]
    ensures "cls_dicts" !in kwargs ==> r["cls_dicts"] == added
  {
    var current := if "cls_dicts" in kwargs then kwargs["cls_dicts"] else [];
    kwargs["cls_dicts" := added + current]
  }

  /**
   * A subclass' `__init__` adds its widgets before calling its parent's,
   * which adds its own: the parent's widgets come first, then the subclass',
   * then whatever the caller passed.
   */
  lemma ParentWidgetsFirst<D>(parent: seq<D>, child: seq<D>, kwargs: map<string, seq<D>>)
    ensures var r := AddClsDicts(parent, AddClsDicts(child, kwargs));
      r["cls_dicts"] == parent + child + (if "cls_dicts" in kwargs then kwargs["cls_dicts"] else [])
      && r.Keys == kwargs.Keys + {"cls_dicts"}
  {
    var once := AddClsDicts(child, kwargs);
    var twice := AddClsDicts(parent, once);
    var current := if "cls_dicts" in kwargs then kwargs["cls_dicts"] else [];
    assert once["cls_dicts"] == child + current;
    assert twice["cls_dicts"] == parent + (child + current);
  }

  /**
   * The list screens' `DurationInput`: the text, the cursor (column, row),
   * and `last_text`, the text after the last accepted edit.
   */
  class DurationInput {
    var text: string
    var cursor: (int, int)
    var lastText: string

    /** A new field; `last_text` is an empty `StringProperty`. */
    constructor (text: string, cursor: (int, int))
      ensures this.text == text && this.cursor == cursor && lastText == ""
    {
      this.text := text;
      this.cursor := cursor;
      lastText := "";
    }

    /**
     * `insert_text`: when the text's length differs from `last_text`'s (the
     * user deleted characters) the last text comes back and the cursor stays;
     * otherwise the typed digits overwrite those at the cursor as in the
     * variables' duration field, and the result becomes `last_text`.
     */
    method InsertText(substring: string)
      modifies this
      ensures text == lastText
      ensures |old(text)| != |old(lastText)| ==> text == old(lastText) && cursor == old(cursor)
      ensures |old(text)| == |old(lastText)| ==>
        text == InsertedText(old(text), old(cursor).0, substring)
        && cursor == (InsertedColumn(old(text), old(cursor).0, substring), old(cursor).1)
      ensures Shaped(old(lastText)) && (Shaped(old(text)) || |old(text)| != |old(lastText)|) ==> Shaped(text)
    {
      if |text| != |lastText| {
        var cc, cr := cursor.0, cursor.1;
        text := lastText;
        cursor := (cc, cr);
        return;
      }
      ghost var before := text;
      var stripped := KeepDigits(substring);
      var cc, cr := cursor.0, cursor.1;
      cc := CursorAdvancement(cc, 0, |text|);
      text := Layout(InsertedDigits(text, cc, stripped));
      cc := CursorAdvancement(cc, |stripped|, |text|);
      cursor := (cc, cr);
      lastText := text;
      if Shaped(before) {
        InsertKeepsField(before, old(cursor).0, substring);
      }
    }

    /** `do_backspace`: backspace is disabled. */
    method DoBackspace()
      ensures unchanged(this)
    {
    }

    /** `select_text`: selection is disabled. */
    method SelectText(start: int, end: int)
      ensures unchanged(this)
    {
    }
  }
}

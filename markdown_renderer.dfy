/**
  The older copy of the front-matter table in `markdown-renderer.ts`. Its key map and
  `safeToString` are the same as in `front-matter.ts` and are taken from `FrontMatter`; its
  filter differs: it drops only the empty key, so a whitespace-only key gets a row.
 */
module MarkdownRenderer {
  import opened Text
  import opened FrontMatter

  /** The filter of `markdown-renderer.ts`: a defined, non-null value under a non-empty key. */
  predicate KeptByRenderer(e: Entry) {
    !e.value.Undefined? && !e.value.Null? && e.key != ""
  }

  /** Models `formatFrontMatterAsMarkdown(attributes)` of `markdown-renderer.ts`. */
  method RendererFormatFrontMatter(entries: seq<Entry>, stringify: nat -> string, formatDate: Value -> string)
    returns (out: string)
    ensures out == Document(KeepEntries(entries, KeptByRenderer), stringify, formatDate)
    ensures out == "" <==> forall e :: e in entries ==> !KeptByRenderer(e)
  {
    var valid := KeepEntries(entries, KeptByRenderer);
    out := RenderTable(valid, stringify, formatDate);
    assert valid != [] ==> valid[0] in valid;
  }

  /** A key that is non-empty but whitespace only: the one kind of key the two filters disagree on. */
  predicate IsBlankKey(key: string) {
    key != "" && AllWhitespace(key)
  }

  /** The two filters agree on an entry exactly when its key is not a blank key. */
  lemma FiltersAgreeIff(e: Entry)
    ensures KeptByRenderer(e) == IsKept(e) <==> e.value.Undefined? || e.value.Null? || !IsBlankKey(e.key)
  {
    TrimEmptyIffAllWhitespace(e.key);
  }

  /** Without blank keys, both copies produce the same Markdown for the same attributes. */
  lemma CopiesAgreeWithoutBlankKeys(entries: seq<Entry>, stringify: nat -> string, formatDate: Value -> string)
    requires forall e :: e in entries ==> !IsBlankKey(e.key)
    ensures KeepEntries(entries, KeptByRenderer) == KeepEntries(entries, IsKept)
    ensures Document(KeepEntries(entries, KeptByRenderer), stringify, formatDate)
         == Document(KeepEntries(entries, IsKept), stringify, formatDate)
  {
    forall e | e in entries
      ensures KeptByRenderer(e) == IsKept(e)
    {
      FiltersAgreeIff(e);
    }
    KeepEntriesAgree(entries, KeptByRenderer, IsKept);
  }

  /**
    A single attribute under the key " " shows the difference: `front-matter.ts` renders
    nothing, `markdown-renderer.ts` renders a table with a row for it.
   */
  lemma BlankKeyShowsDifference(v: Value, stringify: nat -> string, formatDate: Value -> string)
    requires !v.Undefined? && !v.Null?
    ensures Document(KeepEntries([Entry(" ", v)], IsKept), stringify, formatDate) == ""
    ensures Document(KeepEntries([Entry(" ", v)], KeptByRenderer), stringify, formatDate) != ""
  {
    assert Trim(" ") == "" by {
      TrimEmptyIffAllWhitespace(" ");
    }
    assert !IsKept(Entry(" ", v));
    assert KeptByRenderer(Entry(" ", v));
    assert Entry(" ", v) in KeepEntries([Entry(" ", v)], KeptByRenderer);
  }
}

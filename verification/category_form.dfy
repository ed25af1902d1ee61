/** The category form: what its submit handler passes on, and its
    Add/Edit captions. */
module CategoryForm {
  import opened Wrappers
  import opened Text

  /** `handleSubmit` on the typed `name`: the value handed to `onSubmit`,
      or None when `onSubmit` is not called (`name.trim()` is falsy). */
  function SubmittedName(name: string): (r: Option<string>)
    ensures r.None? <==> AllSpace(name)
    ensures r.Some? ==> r.value != "" && !IsSpace(r.value[0]) && !IsSpace(r.value[|r.value| - 1])
    ensures r.Some? ==> |r.value| <= |name|
  {
    var trimmed := Trim(name);
    if trimmed != "" then Some(trimmed) else None
  }

  /** The heading: `Edit Category` for a non-empty `initialValue`. */
  function Heading(initialValue: string): (h: string)
    ensures h == "Edit Category" <==> initialValue != ""
    ensures h == "Add Category" <==> initialValue == ""
  {
    if initialValue != "" then "Edit Category" else "Add Category"
  }

  /** The submit button: `Update Category` for a non-empty `initialValue`. */
  function SubmitCaption(initialValue: string): (c: string)
    ensures c == "Update Category" <==> initialValue != ""
    ensures c == "Add Category" <==> initialValue == ""
  {
    (if initialValue != "" then "Update" else "Add") + " Category"
  }

  /** The submitted name is a contiguous piece of the typed name, and only
      whitespace was cut from either side. */
  lemma SubmittedIsInfix(name: string)
    requires SubmittedName(name).Some?
    ensures exists i, j :: 0 <= i <= j <= |name| && SubmittedName(name).value == name[i..j] &&
                           AllSpace(name[..i]) && AllSpace(name[j..])
  {
    TrimIsInfix(name);
  }

  /** Submitting an already submitted name passes it through unchanged. */
  lemma SubmitIdempotent(name: string)
    requires SubmittedName(name).Some?
    ensures SubmittedName(SubmittedName(name).value) == SubmittedName(name)
  {
    TrimIdempotent(name);
  }

  /** A name with no whitespace at either end is submitted as typed. */
  lemma TrimmedNamePassesThrough(name: string)
    requires name != "" && !IsSpace(name[0]) && !IsSpace(name[|name| - 1])
    ensures SubmittedName(name) == Some(name)
  {
    TrimOfTrimmed(name);
  }
}

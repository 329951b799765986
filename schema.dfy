/** The two string rules the forms' zod schemas use. */
module Schema {
  import opened Wrappers

  /** `z.string().min(n)` */
  predicate MinLength(s: string, n: nat)
  {
    |s| >= n
  }

  /** `z.string().min(n).optional()`: an absent value passes, a present one,
      the empty string included, must have at least `n` characters. */
  predicate OptionalMinLength(s: Option<string>, n: nat)
  {
    s.None? || MinLength(s.value, n)
  }

  /** What an input labelled "(Optional)" evidently intends: an absent value
      and one left blank both pass, any other must have at least `n`
      characters. */
  predicate BlankOrMinLength(s: Option<string>, n: nat)
  {
    s.None? || s.value == "" || MinLength(s.value, n)
  }

  /** The field's entry in the form's error object: present exactly when its rule fails. */
  function Check<F>(ok: bool, field: F): (issues: set<F>)
    ensures field in issues <==> !ok
    ensures forall g :: g in issues ==> g == field
  {
    if ok then {} else {field}
  }
}

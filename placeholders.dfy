/**
 * Literal `{name}` placeholder substitution with `str.replace`, as both
 * senders fill their templates: each variable in turn, every occurrence of
 * its token replaced left to right.
 */
module Placeholders {
  import opened Text

  /** `'{' + key + '}'`. */
  function Token(key: string): (t: string)
    ensures |t| > 0 && t[0] == '{'
  {
    "{" + key + "}"
  }

  /** Each variable in order, every occurrence of its token replaced by its value (`message.replace(var, value)`). */
  function FillOnce(t: string, vars: seq<(string, string)>): string {
    if vars == [] then t
    else
      var v := vars[|vars| - 1];
      Replace(FillOnce(t, vars[..|vars| - 1]), Token(v.0), v.1)
  }

  /** The same with each variable's `replace` applied twice in a row. */
  function FillTwice(t: string, vars: seq<(string, string)>): string {
    if vars == [] then t
    else
      var v := vars[|vars| - 1];
      Replace(Replace(FillTwice(t, vars[..|vars| - 1]), Token(v.0), v.1), Token(v.0), v.1)
  }

  /** A template holding none of the variables' tokens comes back unchanged from both passes. */
  lemma {:induction false} NoPlaceholderUnchanged(t: string, vars: seq<(string, string)>)
    requires forall k | 0 <= k < |vars| :: !Contains(t, Token(vars[k].0))
    ensures FillOnce(t, vars) == t && FillTwice(t, vars) == t
  {
    if vars != [] {
      var v := vars[|vars| - 1];
      NoPlaceholderUnchanged(t, vars[..|vars| - 1]);
      ReplaceAbsent(t, Token(v.0), v.1);
    }
  }

  /** In particular, a template without '{' comes back unchanged. */
  lemma NoBraceUnchanged(t: string, vars: seq<(string, string)>)
    requires '{' !in t
    ensures FillOnce(t, vars) == t && FillTwice(t, vars) == t
  {
    forall k | 0 <= k < |vars| ensures !Contains(t, Token(vars[k].0)) {
      if Contains(t, Token(vars[k].0)) {
        var i := ContainsWitness(t, Token(vars[k].0));
      }
    }
    NoPlaceholderUnchanged(t, vars);
  }
}

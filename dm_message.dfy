/**
 * The DM text: the twelve placeholders of the Twitter template and the
 * coach's last name.
 */
module DmMessage {
  import opened Text
  import opened Placeholders

  /** `athlete_info.get(key, '')`. */
  function Get(info: map<string, string>, key: string): string {
    if key in info then info[key] else ""
  }

  /** The twelve replacements of `prepare_message`, in the order it lists them. */
  function DmVariables(lastName: string, school: string, info: map<string, string>): seq<(string, string)> {
    [("last_name", lastName), ("school", school), ("athlete_name", Get(info, "name")),
     ("graduation_year", Get(info, "graduation_year")), ("height", Get(info, "height")),
     ("weight", Get(info, "weight")), ("positions", Get(info, "positions")),
     ("high_school", Get(info, "high_school")), ("city_state", Get(info, "city_state")),
     ("highlight_url", Get(info, "highlight_url")), ("gpa", Get(info, "gpa")), ("phone", Get(info, "phone"))]
  }

  /** `prepare_message`: each placeholder replaced in turn. */
  method PrepareMessage(template: string, lastName: string, school: string, info: map<string, string>)
    returns (message: string)
    ensures message == FillOnce(template, DmVariables(lastName, school, info))
  {
    var replacements := DmVariables(lastName, school, info);
    message := template;
    for k := 0 to |replacements|
      invariant message == FillOnce(template, replacements[..k])
    {
      assert replacements[..k + 1][..k] == replacements[..k];
      var (key, value) := replacements[k];
      message := Replace(message, "{" + key + "}", value);
    }
    assert replacements[..|replacements|] == replacements;
  }

  /** A template with none of the twelve placeholders is sent as it is. */
  lemma PlainTemplateUnchanged(template: string, lastName: string, school: string, info: map<string, string>)
    requires forall k | 0 <= k < 12 :: !Contains(template, Token(DmVariables(lastName, school, info)[k].0))
    ensures FillOnce(template, DmVariables(lastName, school, info)) == template
  {
    NoPlaceholderUnchanged(template, DmVariables(lastName, school, info));
  }

  /**
   * `name.split()[-1] if name else ''` as written: `None` where the name is
   * non-empty but blank, `split()` is empty and `[-1]` raises.
   */
  function LastNameAsWritten(name: string): Option<string> {
    if name == "" then Some("")
    else if AllSpace(name) then None
    else Some(LastWord(name))
  }

  /** A name of one space stops the batch with an `IndexError`. */
  lemma BlankNameRaises()
    ensures LastNameAsWritten(" ") == None
  {
    assert IsSpace(" "[0]);
  }

  /** The last word of the name, or '' for an empty or blank name. */
  function LastName(name: string): (r: string)
    ensures AllSpace(name) ==> r == ""
    ensures !AllSpace(name) ==> |r| > 0 && NoSpace(r)
    ensures LastNameAsWritten(name).Some? ==> LastNameAsWritten(name) == Some(r)
    ensures LastNameAsWritten(name).None? <==> name != "" && AllSpace(name)
  {
    if AllSpace(name) then "" else LastWord(name)
  }

  /** The message for a coach with this name and school. */
  function MessageFor(name: string, school: string, template: string, info: map<string, string>): string {
    FillOnce(template, DmVariables(LastName(name), school, info))
  }
}

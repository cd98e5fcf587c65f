/**
 * The two pieces of the Weka framework the wrapper's own logic calls:
 * Utils.getOption, which takes a flag's value out of an option list, and
 * the capability test run on a data set before any work is done.
 */
module WekaUtils {
  import opened Results

  /** Utils.getOption throws when a flag is the last entry and has no value. */
  datatype OptionError = NoValueGiven(flag: char)

  function FlagToken(flag: char): string {
    ['-', flag]
  }

  /** The first position at or after `from` holding "-flag". */
  function FlagPositionFrom(flag: char, options: seq<string>, from: nat): (r: Option<nat>)
    requires from <= |options|
    ensures r.Some? ==> from <= r.value < |options| && options[r.value] == FlagToken(flag)
    ensures r.Some? ==> forall k :: from <= k < r.value ==> options[k] != FlagToken(flag)
    ensures r.None? ==> forall k :: from <= k < |options| ==> options[k] != FlagToken(flag)
    decreases |options| - from
  {
    if from == |options| then None
    else if options[from] == FlagToken(flag) then Some(from)
    else FlagPositionFrom(flag, options, from + 1)
  }

  function FlagPosition(flag: char, options: seq<string>): Option<nat> {
    FlagPositionFrom(flag, options, 0)
  }

  /**
   * Utils.getOption(flag, options): the entry after the first "-flag", and
   * the option list with both entries blanked (Weka consumes them); "" and
   * the list unchanged when the flag is absent.
   */
  function GetOption(flag: char, options: seq<string>): (r: Result<(string, seq<string>), OptionError>)
    ensures r.Err? <==> |options| > 0 && FlagPosition(flag, options) == Some(|options| - 1)
    ensures r.Ok? ==> |r.value.1| == |options|
  {
    match FlagPosition(flag, options)
    case None => Ok(("", options))
    case Some(i) =>
      if i + 1 == |options| then Err(NoValueGiven(flag))
      else Ok((options[i + 1], options[i := ""][i + 1 := ""]))
  }

  /** A flag that does not occur yields "" and consumes nothing. */
  lemma GetOptionAbsent(flag: char, options: seq<string>)
    requires FlagToken(flag) !in options
    ensures GetOption(flag, options) == Ok(("", options))
  {
  }

  /** The value after the first occurrence of a flag is the one returned. */
  lemma GetOptionFirst(flag: char, pre: seq<string>, value: string, post: seq<string>)
    requires FlagToken(flag) !in pre
    ensures GetOption(flag, pre + [FlagToken(flag), value] + post)
         == Ok((value, pre + ["", ""] + post))
  {
    var options := pre + [FlagToken(flag), value] + post;
    assert options[|pre|] == FlagToken(flag);
    assert forall k :: 0 <= k < |pre| ==> options[k] == pre[k];
    assert options[|pre| := ""][|pre| + 1 := ""] == pre + ["", ""] + post;
  }

  // ---------------------------------------------------------------------
  // Capabilities
  // ---------------------------------------------------------------------

  datatype AttributeType = Nominal | Numeric | StringAttribute | Date | Relational

  /** A data set, seen only through the types of its attributes (the class attribute among them). */
  datatype Instances = Instances(attributes: seq<AttributeType>)

  /**
   * What the wrapper's capabilities admit: nominal attributes (missing values
   * allowed) and either no class or a nominal one. With the class counted
   * among the attributes this is "every attribute is nominal".
   */
  predicate Handles(data: Instances) {
    forall k :: 0 <= k < |data.attributes| ==> data.attributes[k] == Nominal
  }
}

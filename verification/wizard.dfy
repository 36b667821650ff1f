/**
  What every manifest flow shares: the reasons a flow stops without writing
  a file, the file it writes, and how a yes/no answer is read.
 */
module Wizard {
  import opened Tokens

  /** Why a flow stopped; either way no file is written. A count or port
      check prints a message and then stops through `click.Context.exit(0)`,
      or, for a deployment's label mismatch, simply returns. A yes/no answer
      without a token is an uncaught `IndexError`: nothing is printed and
      `exit` is not called. */
  datatype Error =
    | LabelCountMismatch     // label keys and label values differ in number
    | PortNotInteger         // a port token is not an integer
    | NoChoiceToken          // a yes/no answer has no token: indexing `[0]` fails
    | EnvCountMismatch       // env names and env values differ in number
    | VolumeCountMismatch    // volume names and volume paths differ in number
    | PortCountMismatch      // service ports and container ports differ in number
    | SelectorCountMismatch  // selector keys and selector values differ in number

  /** The manifest a flow produced and the name of the file it goes to. */
  datatype Output<M> = Output(fileName: string, manifest: M)

  /** A yes/no answer as the flows read it: by its first token. */
  datatype Choice = Yes | No | Missing

  /** `str2list(answer)[0] == 'yes'`, with the out-of-range index of a blank
      answer made explicit as `Missing`. */
  function ReadChoice(answer: string): (c: Choice)
    ensures c == Missing <==> Blank(answer)
    ensures c == Yes <==> |Str2List(answer)| > 0 && Str2List(answer)[0] == "yes"
  {
    var tokens := Str2List(answer);
    NoTokensIffBlank(answer);
    if |tokens| == 0 then Missing
    else if tokens[0] == "yes" then Yes
    else No
  }

  /** Leading spaces are skipped and only the first token is read. */
  lemma ReadChoiceFirstToken()
    ensures ReadChoice("  yes no") == Yes
  {
    var ps := ["", "", "yes", "no"];
    assert Join(ps) == "  yes no";
    PiecesOfJoin(ps);
    assert RemoveEmpty(ps[2..]) == ["yes", "no"];
    assert RemoveEmpty(ps[1..]) == ["yes", "no"];
  }

  /** A later `yes` does not count. */
  lemma ReadChoiceLaterYes()
    ensures ReadChoice("no yes") == No
  {
    Str2ListOfJoin(["no", "yes"]);
    assert Join(["no", "yes"]) == "no yes";
  }

  /** The token must be exactly `yes`; a blank answer has no token. */
  lemma ReadChoiceExact()
    ensures ReadChoice("yes") == Yes
    ensures ReadChoice("Yes") == No
    ensures ReadChoice("   ") == Missing
  {
    Str2ListOfJoin(["yes"]);
    Str2ListOfJoin(["Yes"]);
  }
}

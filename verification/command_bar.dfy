/**
  The AI command dialog (client/src/components/ai-command-bar.tsx): when a
  command may be sent, what is sent, when the text box is cleared, and how
  the reply's intent and confidence are labelled.
 */
module CommandBar {
  import opened Wrappers
  import opened Schema
  import opened Text
  import NumberFormat

  /** The dialog's own state: whether it is open and the text typed so far. */
  datatype Bar = Bar(open: bool, text: string)

  /**
    `!command.trim() || isLoading` is false: the text has something besides
    white space and no command is in flight. The same test disables the send
    button and guards the submit handler.
   */
  predicate CanSubmit(text: string, loading: bool)
    ensures CanSubmit(text, loading) ==> |text| >= 1 && !loading
  {
    Trim(text) != "" && !loading
  }

  /** The guard, stated without trimming: some character is not white space. */
  lemma CanSubmitIffNotBlank(text: string, loading: bool)
    ensures CanSubmit(text, loading) <==> !IsBlank(text) && !loading
  {
    TrimEmptyIffBlank(text);
  }

  /**
    Submitting the form: when the guard passes, the text is sent as typed
    (not trimmed) and the box is cleared once the parent's handler returns;
    otherwise nothing is sent and nothing changes.
   */
  function Submit(b: Bar, loading: bool): (r: (Option<string>, Bar))
    ensures CanSubmit(b.text, loading) ==> r.0 == Some(b.text) && r.1 == b.(text := "")
    ensures !CanSubmit(b.text, loading) ==> r.0 == None && r.1 == b
  {
    if CanSubmit(b.text, loading) then (Some(b.text), b.(text := "")) else (None, b)
  }

  /** Every command the dialog sends passes the server's request schema. */
  lemma SentCommandsAreAccepted(b: Bar, loading: bool)
    requires Submit(b, loading).0.Some?
    ensures ParseCommand(Object(Str(Submit(b, loading).0.value))) == Some(b.text)
  {
  }

  /** The server accepts a white-space-only command that the dialog never sends. */
  lemma BlankCommandAcceptedOnlyByServer()
    ensures ParseCommand(Object(Str(" "))) == Some(" ")
    ensures Submit(Bar(true, " "), false).0.None?
  {
    assert IsSpace(' ');
    CanSubmitIffNotBlank(" ", false);
  }

  /** The parent opening or closing the dialog: closing clears the text. */
  function SetOpen(b: Bar, open: bool): (r: Bar)
    ensures r.open == open
    ensures !open ==> r.text == ""
    ensures open ==> r.text == b.text
  {
    if open then b.(open := true) else Bar(false, "")
  }

  /** A dialog that was closed always reopens with an empty box. */
  lemma ReopenStartsEmpty(b: Bar)
    ensures SetOpen(SetOpen(b, false), true).text == ""
  {
  }

  /** The intent badge: every underscore shown as a space (upper-casing is left to styling). */
  function IntentLabel(intent: string): (r: string)
    ensures |r| == |intent|
    ensures forall i :: 0 <= i < |intent| ==> r[i] == (if intent[i] == '_' then ' ' else intent[i])
    ensures forall i :: 0 <= i < |r| ==> r[i] != '_'
  {
    if |intent| == 0 then []
    else [if intent[0] == '_' then ' ' else intent[0]] + IntentLabel(intent[1..])
  }

  /** Replacing underscores loses nothing on text without spaces. */
  lemma IntentLabelInjective(x: string, y: string)
    requires forall i :: 0 <= i < |x| ==> x[i] != ' '
    requires forall i :: 0 <= i < |y| ==> y[i] != ' '
    requires IntentLabel(x) == IntentLabel(y)
    ensures x == y
  {
    assert |x| == |y|;
    forall i | 0 <= i < |x|
      ensures x[i] == y[i]
    {
      assert IntentLabel(x)[i] == IntentLabel(y)[i];
    }
  }

  /** The five intents get five different labels. */
  lemma IntentLabelsDistinct(a: Intent, b: Intent)
    requires a != b
    ensures IntentLabel(IntentName(a)) != IntentLabel(IntentName(b))
  {
    IntentNameRoundTrip(a);
    IntentNameRoundTrip(b);
    if IntentLabel(IntentName(a)) == IntentLabel(IntentName(b)) {
      IntentLabelInjective(IntentName(a), IntentName(b));
    }
  }

  /** "Confidence: n%": the confidence as a whole percentage. */
  function ConfidenceLabel(confidence: real): (r: string)
    ensures |r| >= 14 && r[..12] == "Confidence: " && r[|r| - 1] == '%'
    ensures confidence >= 0.0 ==>
      && NumberFormat.AllDigits(r[12..|r| - 1])
      && confidence * 100.0 - 0.5 < NumberFormat.ParseNat(r[12..|r| - 1]) as real <= confidence * 100.0 + 0.5
  {
    var digits := NumberFormat.Fixed0(confidence * 100.0);
    var r := "Confidence: " + digits + "%";
    assert r[12..|r| - 1] == digits;
    if confidence >= 0.0 then
      NumberFormat.Fixed0IsAccurate(confidence * 100.0);
      r
    else r
  }

  /** The fallback's confidence of 0.7 is shown as 70%. */
  lemma FallbackConfidenceLabel()
    ensures ConfidenceLabel(0.7) == "Confidence: 70%"
  {
    assert NumberFormat.RoundUnits(70.0) == 70;
    assert NumberFormat.NatToString(70) == "70";
  }
}

/**
 * The joke tool (get_joke in app.py), without the HTTP request: what the joke
 * service answered is an input, and what is modelled is how the reply is
 * chosen and put together from it.
 */
module Joke {
  import opened Wrappers
  import opened PyText

  /** The decoded JSON body; only its string fields are modelled. */
  type Payload = map<string, string>

  /**
   * What the service answered: the status code, and the decoded body, None
   * when response.json() fails.
   */
  datatype Response = Response(status: int, body: Option<Payload>)

  const FallbackSetup: string := "Why did the librarian " + "get kicked off the plane?"
  const FallbackDelivery: string := "It was overbooked!"
  const NoJoke: string := "No joke found"
  const SetupLabel: string := "Setup: "
  const PunchlineLabel: string := "\nPunchline: "

  /** data.get(key, default) */
  function Get(data: Payload, key: string, default: string): string
  {
    if key in data then data[key] else default
  }

  /** f"Setup: {setup}\nPunchline: {delivery}" */
  function TwoPart(setup: string, delivery: string): string
  {
    SetupLabel + setup + PunchlineLabel + delivery
  }

  /** The joke told when the service cannot be used. */
  function Fallback(): string
  {
    TwoPart(FallbackSetup, FallbackDelivery)
  }

  /**
   * The reply for an answer from the service, None when the request raised:
   * a two-part joke rendered as setup and punchline, otherwise the "joke"
   * field; anything other than a readable 200 answer gives the fallback joke.
   */
  function JokeReply(response: Option<Response>): (r: string)
    ensures response.None? ==> r == Fallback()
    ensures response.Some? && response.value.status != 200 ==> r == Fallback()
    ensures response.Some? && response.value.body.None? ==> r == Fallback()
  {
    match response
    case None => Fallback()
    case Some(Response(status, body)) =>
      if status != 200 then Fallback()
      else match body
        case None => Fallback()
        case Some(data) =>
          if "type" in data && data["type"] == "twopart"
          then TwoPart(Get(data, "setup", ""), Get(data, "delivery", ""))
          else Get(data, "joke", NoJoke)
  }

  /**
   * Reading a two-part reply back: the setup runs up to the first
   * "\nPunchline: ", the delivery is everything after it.
   */
  function SplitTwoPart(reply: string): Option<(string, string)>
  {
    if !(SetupLabel <= reply) then None
    else
      var rest := reply[|SetupLabel|..];
      var i := Find(rest, PunchlineLabel);
      if i == -1 then None
      else Some((rest[..i], rest[i + |PunchlineLabel|..]))
  }

  /** The label holds a line break only at its first position. */
  lemma PunchlineLabelBreaks()
    ensures PunchlineLabel[0] == '\n'
    ensures forall m :: 1 <= m < |PunchlineLabel| ==> PunchlineLabel[m] != '\n'
  {
  }

  /**
   * A two-part reply can be read back into its setup and delivery, provided
   * the setup does not itself contain "\nPunchline: ".
   */
  lemma TwoPartRoundTrip(setup: string, delivery: string)
    requires Absent(setup, PunchlineLabel)
    ensures SplitTwoPart(TwoPart(setup, delivery)) == Some((setup, delivery))
  {
    var reply := TwoPart(setup, delivery);
    assert reply == SetupLabel + (setup + PunchlineLabel + delivery);
    var rest := reply[|SetupLabel|..];
    assert rest == setup + PunchlineLabel + delivery;
    assert OccursAt(rest, PunchlineLabel, |setup|);
    PunchlineLabelBreaks();
    forall k | 0 <= k < |setup|
      ensures !OccursAt(rest, PunchlineLabel, k)
    {
      if k + |PunchlineLabel| <= |setup| {
        assert rest[k..k + |PunchlineLabel|] == setup[k..k + |PunchlineLabel|];
        assert !OccursAt(setup, PunchlineLabel, k);
      } else {
        // a match at k would cover rest[|setup|], the line break that opens the
        // real label, at a position of the label that holds no line break
        assert rest[|setup|] == PunchlineLabel[0];
      }
    }
    assert rest[..|setup|] == setup;
    assert rest[|setup| + |PunchlineLabel|..] == delivery;
  }

  /** A setup that contains "\nPunchline: " does not read back: the reply is split at the label inside it. */
  lemma InnerLabelSplitsEarly(setup: string, delivery: string)
    requires !Absent(setup, PunchlineLabel)
    ensures SplitTwoPart(TwoPart(setup, delivery)) != Some((setup, delivery))
  {
    var reply := TwoPart(setup, delivery);
    assert reply == SetupLabel + (setup + PunchlineLabel + delivery);
    var rest := reply[|SetupLabel|..];
    assert rest == setup + PunchlineLabel + delivery;
    var j :| 0 <= j <= |setup| && OccursAt(setup, PunchlineLabel, j);
    assert rest[j..j + |PunchlineLabel|] == setup[j..j + |PunchlineLabel|];
    assert OccursAt(rest, PunchlineLabel, j);
    var i := Find(rest, PunchlineLabel);
    assert 0 <= i <= j < |setup|;
    assert |rest[..i]| < |setup|;
  }

  /**
   * A 200 answer typed "twopart" is rendered from its setup and delivery, each
   * defaulting to "", and they can be read back from the reply whenever the
   * setup does not contain "\nPunchline: ".
   */
  lemma TwoPartReply(data: Payload)
    requires "type" in data && data["type"] == "twopart"
    requires Absent(Get(data, "setup", ""), PunchlineLabel)
    ensures SplitTwoPart(JokeReply(Some(Response(200, Some(data)))))
            == Some((Get(data, "setup", ""), Get(data, "delivery", "")))
  {
    TwoPartRoundTrip(Get(data, "setup", ""), Get(data, "delivery", ""));
  }

  /** A 200 answer of any other type is its "joke" field, or "No joke found" without one. */
  lemma SinglePartReply(data: Payload)
    requires !("type" in data && data["type"] == "twopart")
    ensures "joke" in data ==> JokeReply(Some(Response(200, Some(data)))) == data["joke"]
    ensures "joke" !in data ==> JokeReply(Some(Response(200, Some(data)))) == NoJoke
  {
  }

  /** A string without a line break cannot contain "\nPunchline: ". */
  lemma NoBreakNoLabel(setup: string)
    requires forall k :: 0 <= k < |setup| ==> setup[k] != '\n'
    ensures Absent(setup, PunchlineLabel)
  {
    forall i | 0 <= i <= |setup|
      ensures !OccursAt(setup, PunchlineLabel, i)
    {
      if i + |PunchlineLabel| <= |setup| {
        // the label opens with a line break, and setup[i] is none
        assert setup[i..i + |PunchlineLabel|][0] == setup[i];
      }
    }
  }

  /** The fallback joke has the two-part shape and reads back into its own setup and punchline. */
  lemma FallbackIsTwoPart()
    ensures SplitTwoPart(Fallback()) == Some((FallbackSetup, FallbackDelivery))
  {
    assert forall k :: 0 <= k < |FallbackSetup| ==> FallbackSetup[k] != '\n';
    NoBreakNoLabel(FallbackSetup);
    TwoPartRoundTrip(FallbackSetup, FallbackDelivery);
  }
}

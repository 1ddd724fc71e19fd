/**
 * `get_time_based_greeting`: the UTC hour selects a part of the day, and a
 * part of the day selects the prompt for a generated greeting. The clock is
 * an input: the hour is passed in.
 */
module Greeting {
  import opened Wrappers
  import opened Gemini
  import opened Strings

  datatype TimeOfDay = Morning | Afternoon | Evening

  /** The word used in the prompt's `Good …`. */
  function Name(t: TimeOfDay): string
  {
    match t
    case Morning => "Morning"
    case Afternoon => "Afternoon"
    case Evening => "Evening"
  }

  /** First hour of a band (inclusive). */
  function BandStart(t: TimeOfDay): int
  {
    match t
    case Morning => 5
    case Afternoon => 12
    case Evening => 18
  }

  /** Hour at which a band ends (exclusive). */
  function BandEnd(t: TimeOfDay): int
  {
    match t
    case Morning => 12
    case Afternoon => 18
    case Evening => 23
  }

  /** The band table read as half-open hour ranges [start, end). */
  predicate InBand(t: TimeOfDay, hour: int)
  {
    BandStart(t) <= hour < BandEnd(t)
  }

  /** The hours of the day that get no greeting: 23 and 0 to 4. */
  predicate IsQuietHour(hour: int)
  {
    hour == 23 || 0 <= hour < 5
  }

  /** The if/elif chain on the hour: Morning, Afternoon, Evening, or no greeting
      for anything else (the quiet hours, and any hour outside a day). */
  function TimeOfDayAt(hour: int): (r: Option<TimeOfDay>)
    ensures forall t :: r == Some(t) <==> InBand(t, hour)
    ensures 0 <= hour < 24 ==> (r == None <==> IsQuietHour(hour))
  {
    if 5 <= hour < 12 then Some(Morning)
    else if 12 <= hour < 18 then Some(Afternoon)
    else if 18 <= hour < 23 then Some(Evening)
    else None
  }

  /** Every hour of the day is in exactly one of the three bands or quiet. */
  lemma BandsPartitionDay(hour: int)
    requires 0 <= hour < 24
    ensures IsQuietHour(hour) <==> forall t :: !InBand(t, hour)
    ensures forall t1, t2 :: InBand(t1, hour) && InBand(t2, hour) ==> t1 == t2
    ensures IsQuietHour(hour) || exists t :: InBand(t, hour)
  {
    if !IsQuietHour(hour) {
      assert InBand(TimeOfDayAt(hour).value, hour);
    }
  }

  /** `Good Morning`, `Good Afternoon` or `Good Evening`. */
  function Salutation(t: TimeOfDay): (s: string)
  {
    "Good " + Name(t)
  }

  const PromptLead: string := "Generate a very short, cheerful, and creative '"
  const PromptTail: string :=
    "specifically for a Telegram bot that sends daily tech updates. "
    + "Make it concise, inviting, and include a positive, tech-related touch. Avoid emojis."

  /** The opening sentence fragment, which is the only band-dependent part. */
  function PromptOpening(t: TimeOfDay): (s: string)
  {
    PromptLead + Salutation(t) + "' message, "
  }

  /** The prompt handed to the generation service for a band: it opens with
      the band's opening, carries `Good <band>` right after the fixed lead,
      and the rest is the same fixed tail for every band. */
  function GreetingPrompt(t: TimeOfDay): (p: string)
    ensures PromptOpening(t) <= p
    ensures p[|PromptLead|..|PromptLead| + |Salutation(t)|] == Salutation(t)
    ensures p[|PromptOpening(t)|..] == PromptTail
  {
    FourPieces(PromptLead, Salutation(t), "' message, ", PromptTail);
    PromptOpening(t) + PromptTail
  }

  /** Different bands ask for different greetings. */
  lemma GreetingPromptInjective(t: TimeOfDay, u: TimeOfDay)
    requires GreetingPrompt(t) == GreetingPrompt(u)
    ensures t == u
  {
    var k := |PromptLead| + 5;
    assert Salutation(t)[5] == Name(t)[0];
    assert Salutation(u)[5] == Name(u)[0];
    assert GreetingPrompt(t)[k] == Salutation(t)[5];
    assert GreetingPrompt(u)[k] == Salutation(u)[5];
  }

  /** The prompt requested at an hour, if the hour gets a greeting. */
  function GreetingRequest(hour: int): (p: Option<string>)
    ensures p.Some? <==> !IsQuietHour(hour) && 0 <= hour < 24
    ensures forall t :: InBand(t, hour) ==> p == Some(GreetingPrompt(t))
  {
    match TimeOfDayAt(hour)
    case Some(t) => Some(GreetingPrompt(t))
    case None => None
  }

  /** What `get_time_based_greeting` returns, given what the service produced
      for the greeting prompt: `None` in the quiet hours, otherwise the
      flattened response, which may be an apology or the fallback. */
  function TimeBasedGreeting(hour: int, generated: Outcome): (g: Option<string>)
    ensures g.None? <==> GreetingRequest(hour).None?
    ensures g.Some? ==> g.value == ResponseText(generated)
    ensures generated.Raised? && g.Some? ==> g.value != ""
  {
    match TimeOfDayAt(hour)
    case Some(_) => Some(ResponseText(generated))
    case None => None
  }
}

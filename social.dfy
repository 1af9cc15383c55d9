/** The small-talk router of the chat page (app/main.py,
    `handle_social_intents`): greetings, farewells and thanks get a canned
    reply before any player lookup is attempted. */
module Social {
  import opened Seqs
  import opened Text

  const Greetings: seq<string> := ["merhaba", "selam", "slm", "günaydın", "iyi akşamlar", "hey", "merhabalar"]
  const Farewells: seq<string> := ["güle güle", "görüşürüz", "baybay", "bye", "iyi geceler", "hoşçakal", "çıkış"]
  const Thanks: seq<string> := ["teşekkürler", "teşekkür", "sağ ol", "eyvallah"]

  const GreetingReplies: seq<string> := [
    "Merhaba! Ben Futbolcu Scout Asistanı. Size hangi oyuncu hakkında bilgi verebilirim?",
    "Selamlar! Bir futbolcu arıyorsanız doğru yerdesiniz.",
    "Merhaba! Analiz etmemi istediğiniz bir futbolcu var mı?"]
  const FarewellReplies: seq<string> := [
    "Görüşmek üzere! Futbol dolu günler dilerim.",
    "Hoşçakalın, yine beklerim!",
    "İyi günler! Başka bir oyuncu analizi için her zaman buradayım."]
  const ThanksReply: string := "Rica ederim! Yardımcı olabildiysem ne mutlu."

  /** The three kinds of small talk, in the order they are recognised. */
  datatype Kind = Greeting | Farewell | Gratitude

  /** The replies `random.choice` picks from for each kind. */
  function Replies(kind: Kind): (r: seq<string>)
    ensures |r| >= 1
  {
    match kind
    case Greeting => GreetingReplies
    case Farewell => FarewellReplies
    case Gratitude => [ThanksReply]
  }

  /** `text.lower().strip()`. */
  function Normalise(text: string): string {
    Strip(Lower(text))
  }

  /** The normalised text is one of the greetings, or starts with one of them
      followed by a space. */
  predicate IsGreeting(t: string) {
    exists i :: 0 <= i < |Greetings| && (t == Greetings[i] || StartsWith(t, Greetings[i] + " "))
  }

  /** Some farewell phrase occurs in the normalised text. */
  predicate IsFarewell(t: string) {
    exists i :: 0 <= i < |Farewells| && Contains(t, Farewells[i])
  }

  /** Some thanks phrase occurs in the normalised text. */
  predicate IsThanks(t: string) {
    exists i :: 0 <= i < |Thanks| && Contains(t, Thanks[i])
  }

  /** The tests in the order of the early returns: greeting, then farewell,
      then thanks. */
  function KindOf(t: string): Option<Kind> {
    if IsGreeting(t) then Some(Greeting)
    else if IsFarewell(t) then Some(Farewell)
    else if IsThanks(t) then Some(Gratitude)
    else None
  }

  /** `random.choice(options)`, with the random draw given as `pick`. */
  function Choice(options: seq<string>, pick: nat): (r: string)
    requires options != []
    ensures r in options
  {
    options[pick % |options|]
  }

  /** Every option is chosen by some draw. */
  lemma {:induction false} ChoiceCovers(options: seq<string>, reply: string)
    requires reply in options
    ensures exists pick: nat :: Choice(options, pick) == reply
  {
    var i :| 0 <= i < |options| && options[i] == reply;
    assert Choice(options, i) == reply;
  }

  /** `handle_social_intents(text)`: a reply of the first kind the
      normalised text belongs to, drawn from that kind's replies, or `None`
      when it is none of them. */
  function HandleSocialIntents(text: string, pick: nat): (r: Option<string>)
    ensures r.None? <==> KindOf(Normalise(text)).None?
    ensures r.Some? ==> r.value in Replies(KindOf(Normalise(text)).value)
  {
    match KindOf(Normalise(text))
    case None => None
    case Some(kind) => Some(Choice(Replies(kind), pick))
  }

  /** The routing in full: a greeting is recognised exactly by equality or
      a prefix followed by a space, and wins over farewells and thanks; a
      farewell is recognised by occurrence and wins over thanks; thanks are
      recognised by occurrence and get the one fixed reply; anything else
      gets no reply. */
  lemma {:induction false} SocialIntentCases(text: string, pick: nat)
    ensures var t, r := Normalise(text), HandleSocialIntents(text, pick);
      && (IsGreeting(t) ==> r.Some? && r.value in GreetingReplies)
      && (!IsGreeting(t) && IsFarewell(t) ==> r.Some? && r.value in FarewellReplies)
      && (!IsGreeting(t) && !IsFarewell(t) && IsThanks(t) ==> r == Some(ThanksReply))
      && (r.None? <==> !IsGreeting(t) && !IsFarewell(t) && !IsThanks(t))
  {
  }

  /** Every reply of the recognised kind is possible: the model of
      `random.choice` excludes none of them. */
  lemma {:induction false} EveryReplyPossible(text: string, reply: string)
    requires KindOf(Normalise(text)).Some?
    requires reply in Replies(KindOf(Normalise(text)).value)
    ensures exists pick: nat :: HandleSocialIntents(text, pick) == Some(reply)
  {
    var options := Replies(KindOf(Normalise(text)).value);
    ChoiceCovers(options, reply);
    var pick: nat :| Choice(options, pick) == reply;
    assert HandleSocialIntents(text, pick) == Some(reply);
  }

  /** Only the normalised text matters: white space around the message and
      the case of its letters never change the routing. */
  lemma {:induction false} NormalisationIgnoresPaddingAndCase(pre: string, text: string, post: string, pick: nat)
    requires forall k :: 0 <= k < |pre| ==> IsSpace(pre[k])
    requires forall k :: 0 <= k < |post| ==> IsSpace(post[k])
    ensures HandleSocialIntents(pre + text + post, pick) == HandleSocialIntents(text, pick)
    ensures HandleSocialIntents(Lower(text), pick) == HandleSocialIntents(text, pick)
  {
    LowerAppend(pre, text);
    LowerAppend(pre + text, post);
    LowerBlank(pre);
    LowerBlank(post);
    StripPadded(pre, Lower(text), post);
    LowerIdempotent(text);
  }
}

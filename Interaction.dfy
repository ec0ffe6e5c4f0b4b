/**
 * The `interactionCreate` event of src/bot/events/interactionCreate.js: it marks whether the
 * user is the application owner, hands the interaction to the one handler its type selects, and
 * turns what that handler throws into replies (error.js supplies the error classes whose
 * messages are meant for the user).
 */
module Interaction {
  import opened Wrappers
  import opened Values
  import opened Strings
  import Util

  /** The interaction types of the Discord API. */
  datatype InteractionType = Ping | ApplicationCommand | MessageComponent | Autocomplete | ModalSubmit

  /** The answers of `isMessageComponent()`, `isModalSubmit()`, `isAutocomplete()` and
      `isCommand()`. */
  datatype Tests = Tests(component: bool, modal: bool, autocomplete: bool, command: bool)

  /** The handler modules the event dispatches to. */
  datatype Handler = ComponentHandler | ModalHandler | AutocompleteHandler | CommandHandler

  /** What a handler may throw: a `DiscordAPIError`, an `InteractionError` (`user` when it is a
      `UserError`), or any other value. */
  datatype Thrown =
    | ApiError(code: nat, message: string)
    | InteractionFailure(message: string, user: bool)
    | Plain(v: Value)

  /** One `tryReply` payload: an embed (author name, title, description) or plain content, and
      whether it carries the ephemeral flag. */
  datatype Reply =
    | Embed(author: Option<string>, title: Option<string>, description: string, ephemeral: bool)
    | Text(content: string, ephemeral: bool)

  const GenericText := "\U{274C}\U{2800}An error occurred while processing the interaction."
  const UserErrorTitle := "\U{274C}\U{2800}An error has occurred"
  const ApiAuthor := "Discord API Error #"
  /** The limit `shorten` is given for the owner's details. */
  const DetailLimit := 4000

  /** `interaction.user.id === APP_OWNER_ID`; an unset variable matches nobody. */
  predicate IsOwner(userId: string, ownerId: Option<string>) {
    ownerId == Some(userId)
  }

  /** The `if`/`else if` chain: the first test that holds picks the handler, and no test holding
      means no handler runs. */
  function Dispatch(t: Tests): (r: Option<Handler>)
    ensures r == Some(ComponentHandler) <==> t.component
    ensures r == Some(ModalHandler) <==> !t.component && t.modal
    ensures r == Some(AutocompleteHandler) <==> !t.component && !t.modal && t.autocomplete
    ensures r == Some(CommandHandler) <==> !t.component && !t.modal && !t.autocomplete && t.command
    ensures r.None? <==> !t.component && !t.modal && !t.autocomplete && !t.command
  {
    if t.component then Some(ComponentHandler)
    else if t.modal then Some(ModalHandler)
    else if t.autocomplete then Some(AutocompleteHandler)
    else if t.command then Some(CommandHandler)
    else None
  }

  /** How discord.js answers the four tests for each interaction type: at most one holds. */
  function TestsOf(k: InteractionType): (r: Tests)
    ensures (if r.component then 1 else 0) + (if r.modal then 1 else 0) +
            (if r.autocomplete then 1 else 0) + (if r.command then 1 else 0) <= 1
    ensures k == Ping <==> r == Tests(false, false, false, false)
  {
    Tests(k == MessageComponent, k == ModalSubmit, k == Autocomplete, k == ApplicationCommand)
  }

  /** Every interaction type but `Ping` reaches the handler named after it. */
  lemma DispatchByType(k: InteractionType)
    ensures Dispatch(TestsOf(k)).None? <==> k == Ping
    ensures k == MessageComponent <==> Dispatch(TestsOf(k)) == Some(ComponentHandler)
    ensures k == ModalSubmit <==> Dispatch(TestsOf(k)) == Some(ModalHandler)
    ensures k == Autocomplete <==> Dispatch(TestsOf(k)) == Some(AutocompleteHandler)
    ensures k == ApplicationCommand <==> Dispatch(TestsOf(k)) == Some(CommandHandler)
  {
  }

  /** `error.message` on a thrown value other than a string. */
  function MessageOf(v: Value): (r: Value)
    ensures v.Error? ==> r == v.message
    ensures !v.Error? && !v.Obj? ==> r == Undefined
  {
    match v
    case Error(_, message, _, _, _) => message
    case Obj(props) => if "message" in props then props["message"] else Undefined
    case _ => Undefined
  }

  /** A template literal's conversion of a value to text; an object's own conversion
      (`Error.prototype.toString`, an array's join, `[object Object]`) is the parameter. */
  function ToText(v: Value, objectText: Value -> string): (r: string)
    ensures v.Str? ==> r == v.s
    ensures v.Num? && v.n >= 0 ==> r == NatToString(v.n)
  {
    match v
    case Undefined => "undefined"
    case Null => "null"
    case Bool(b) => if b then "true" else "false"
    case Num(n) => if n >= 0 then NatToString(n) else "-" + NatToString(-n)
    case Str(s) => s
    case _ => objectText(v)
  }

  /** `${message ?? error}`: a thrown string itself, else its `message` when that is neither
      `undefined` nor `null`, else the thrown value's own text. */
  function Detail(v: Value, objectText: Value -> string): (r: string)
    ensures v.Str? ==> r == v.s
    ensures !v.Str? && MessageOf(v).Str? ==> r == MessageOf(v).s
    ensures !v.Str? && (MessageOf(v).Undefined? || MessageOf(v).Null?) ==> r == ToText(v, objectText)
  {
    if v.Str? then v.s
    else
      var m := MessageOf(v);
      if m.Undefined? || m.Null? then ToText(v, objectText) else ToText(m, objectText)
  }

  /** The replies the `catch` block attempts, in order, for a thrown value. */
  function Classify(t: Thrown, isOwner: bool, objectText: Value -> string): (r: seq<Reply>)
    ensures |r| <= 2
    ensures r == [] <==> t.Plain? && !Truthy(t.v)
    ensures t.ApiError? ==> r == [Embed(Some(ApiAuthor + NatToString(t.code)), None, t.message, false)]
    ensures t.InteractionFailure? && !t.user ==> r == [Text(t.message, false)]
    ensures t.InteractionFailure? && t.user ==> r == [Embed(None, Some(UserErrorTitle), t.message, true)]
    ensures t.Plain? && Truthy(t.v) ==> r[0] == Text(GenericText, false)
    ensures |r| == 2 <==> isOwner && t.Plain? && Truthy(t.v)
    ensures |r| == 2 ==> r[1].Text? && r[1].ephemeral && |r[1].content| <= DetailLimit &&
                         (|Detail(t.v, objectText)| <= DetailLimit ==> r[1].content == Detail(t.v, objectText))
  {
    match t
    case ApiError(code, message) => [Embed(Some(ApiAuthor + NatToString(code)), None, message, false)]
    case InteractionFailure(message, user) =>
      if user then [Embed(None, Some(UserErrorTitle), message, true)] else [Text(message, false)]
    case Plain(v) =>
      if !Truthy(v) then []
      else if !isOwner then [Text(GenericText, false)]
      else [Text(GenericText, false), Text(Util.Shorten(Detail(v, objectText), DetailLimit, Util.DefaultSuffix), true)]
  }

  /** Only the owner learns what went wrong: everyone else sees at most the fixed notice, and
      every ephemeral reply is a user error or the owner's details. */
  lemma {:induction false} OthersSeeNoDetails(t: Thrown, objectText: Value -> string)
    ensures t.Plain? ==> Classify(t, false, objectText) == [] || Classify(t, false, objectText) == [Text(GenericText, false)]
    ensures forall i :: 0 <= i < |Classify(t, false, objectText)| && Classify(t, false, objectText)[i].ephemeral ==>
              t.InteractionFailure? && t.user
  {
    var r := Classify(t, false, objectText);
    assert |r| <= 1;
  }

  /** The owner and anyone else get the same first reply; the owner's second reply is the only
      difference. */
  lemma OwnerSeesMore(t: Thrown, objectText: Value -> string)
    ensures Classify(t, false, objectText) == Classify(t, true, objectText)[..|Classify(t, false, objectText)|]
    ensures |Classify(t, true, objectText)| - |Classify(t, false, objectText)| <= 1
  {
  }

  /** A long detail reaches the owner cut to the limit and ending in the suffix of `shorten`. */
  lemma LongDetail(v: Value, objectText: Value -> string)
    requires Truthy(v) && |Detail(v, objectText)| > DetailLimit
    ensures Classify(Plain(v), true, objectText)[1].content[DetailLimit - |Util.DefaultSuffix|..] == Util.DefaultSuffix
    ensures StartsWith(Detail(v, objectText), Classify(Plain(v), true, objectText)[1].content[..DetailLimit - |Util.DefaultSuffix|])
  {
  }

  /** The interaction as the event leaves it: the owner flag it sets and the replies it tries. */
  class Event {
    const userId: string
    var isOwner: bool
    var replies: seq<Reply>

    constructor (userId: string)
      ensures this.userId == userId && !isOwner && replies == []
    {
      this.userId := userId;
      isOwner := false;
      replies := [];
    }

    /** `execute(interaction)`: `outcome` is what the chosen handler did (`None` when it returned,
        `Some(t)` when it threw `t`); it does not matter when no handler runs. */
    method Execute(ownerId: Option<string>, tests: Tests, outcome: Option<Thrown>, objectText: Value -> string)
      returns (handler: Option<Handler>)
      modifies this
      ensures isOwner == IsOwner(userId, ownerId)
      ensures handler == Dispatch(tests)
      ensures replies == old(replies) +
        (if handler.Some? && outcome.Some? then Classify(outcome.value, isOwner, objectText) else [])
    {
      isOwner := ownerId.Some? && userId == ownerId.value;
      handler := None;
      var thrown: Option<Thrown> := None;
      if tests.component {
        handler := Some(ComponentHandler);
      } else if tests.modal {
        handler := Some(ModalHandler);
      } else if tests.autocomplete {
        handler := Some(AutocompleteHandler);
      } else if tests.command {
        handler := Some(CommandHandler);
      }
      if handler.Some? {
        thrown := outcome;
      }
      if thrown.Some? {
        var error := thrown.value;
        if error.ApiError? {
          replies := replies + [Embed(Some(ApiAuthor + NatToString(error.code)), None, error.message, false)];
        } else if error.InteractionFailure? {
          var content := if error.user then Embed(None, Some(UserErrorTitle), error.message, true)
                         else Text(error.message, false);
          replies := replies + [content];
        } else if Truthy(error.v) {
          replies := replies + [Text(GenericText, false)];
          if isOwner {
            var message := Detail(error.v, objectText);
            replies := replies + [Text(Util.Shorten(message, DetailLimit, Util.DefaultSuffix), true)];
          }
        }
      }
    }
  }
}

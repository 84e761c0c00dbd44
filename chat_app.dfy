/**
 * The state of the chat client's top-level `App` component and the handlers
 * that change it. A handler that awaits a request is split in two: the part
 * that runs when the user acts (or a timer fires), and the part that runs
 * when its last request settles, which receives the outcome of `api(...)`
 * and, for the polling effects, whether the effect was torn down meanwhile
 * (`cancelled`). `handleAuthSubmit` awaits twice in register mode; both
 * outcomes go to `AuthCompleted`.
 */
module ChatApp {
  import opened Wrappers
  import opened Text
  import Client

  datatype AuthMode = LoginMode | RegisterMode

  /** The body of `GET /auth/me`. */
  datatype Profile = Profile(id: int, username: string)

  /** An entry of `GET /conversations`. */
  datatype Conversation = Conversation(id: int, otherUsername: string)

  /** Server messages carry numeric ids; optimistic ones carry `temp-<milliseconds>`. */
  datatype MessageId = ServerId(n: int) | TempId(tag: string)

  datatype Message = Message(id: MessageId, conversationId: int, senderUsername: string, text: string, createdAt: string)

  /** The username and password sent to `/auth/register` and `/auth/login`. */
  datatype Credentials = Credentials(username: string, password: string)

  /** What `sendMessage` posts to `/conversations/{id}/messages`. */
  datatype Outgoing = Outgoing(conversationId: int, text: string)

  /** The scroll metrics of the message list element, in CSS pixels (`scrollTop` is fractional under zoom). */
  datatype Viewport = Viewport(scrollHeight: real, scrollTop: real, clientHeight: real)

  const AuthInputMissing := "Please enter username and password."
  const AuthFailed := "Auth failed."
  const StartChatFailed := "Failed to start chat"
  const SendFailed := "Failed to send"
  /** The TypeError V8 raises for `me.username` while `me` is `null`. */
  const NoProfileError := "Cannot read properties of null (reading 'username')"
  const ScrollThreshold: real := 120.0

  // ---------------------------------------------------------------------------
  // Pure rules used by the handlers
  // ---------------------------------------------------------------------------

  /** JavaScript truthiness of a selected id: `null` and `0` are both falsy. */
  predicate Selected(sel: Option<int>) {
    sel.Some? && sel.value != 0
  }

  /** `err.message || fallback`. */
  function MessageOr(message: string, fallback: string): (m: string)
    ensures message != [] ==> m == message
    ensures message == [] ==> m == fallback
    ensures fallback != [] ==> m != []
  {
    if message != [] then message else fallback
  }

  /** The selection after a conversation poll returned `data`: auto-select only when nothing is selected. */
  function AutoSelect(current: Option<int>, data: seq<Conversation>): (r: Option<int>)
    ensures Selected(current) ==> r == current
    ensures !Selected(current) && data != [] ==> r == Some(data[0].id)
    ensures data == [] ==> r == current
  {
    if |data| > 0 && !Selected(current) then Some(data[0].id) else current
  }

  /** Whether some conversation of `cs` has the id `id` (`prev.some(c => c.id === id)`). */
  predicate HasId(cs: seq<Conversation>, id: int) {
    exists k :: 0 <= k < |cs| && cs[k].id == id
  }

  /** How many conversations of `cs` have the id `id`. */
  function CountId(cs: seq<Conversation>, id: int): nat {
    if cs == [] then 0 else (if cs[0].id == id then 1 else 0) + CountId(cs[1..], id)
  }

  /** No id occurs twice. */
  predicate DistinctIds(cs: seq<Conversation>) {
    forall i, j :: 0 <= i < j < |cs| ==> cs[i].id != cs[j].id
  }

  /** The conversation list after `startChat` got `convo`: unchanged if its id is listed, else `convo` first. */
  function WithConversation(prev: seq<Conversation>, convo: Conversation): (r: seq<Conversation>)
    ensures HasId(prev, convo.id) ==> r == prev
    ensures !HasId(prev, convo.id) ==> r == [convo] + prev
  {
    if HasId(prev, convo.id) then prev else [convo] + prev
  }

  /** `onScrollMessages`: the list is near its bottom when less than 120 pixels remain below the viewport. */
  function NearBottom(v: Viewport): (r: bool)
    ensures r <==> v.scrollTop + v.clientHeight > v.scrollHeight - ScrollThreshold
  {
    v.scrollHeight - v.scrollTop - v.clientHeight < ScrollThreshold
  }

  /** `handleAuthSubmit`'s check: the trimmed username and the raw password must both be non-empty. */
  function AuthRequest(authUser: string, authPass: string): (r: Option<Credentials>)
    ensures r.None? <==> AllSpace(authUser, JsWhitespace) || authPass == []
    ensures r.Some? ==> r.value.password == authPass && r.value.username == Trim(authUser, JsWhitespace)
    ensures r.Some? ==> var u := r.value.username;
      u != [] && !IsSpace(u[0], JsWhitespace) && !IsSpace(u[|u| - 1], JsWhitespace)
  {
    var username := Trim(authUser, JsWhitespace);
    if username == [] || authPass == [] then None else Some(Credentials(username, authPass))
  }

  /** `startChat`'s check: the trimmed name to open a conversation with, if it is not blank. */
  function ChatRequest(newChatName: string): (r: Option<string>)
    ensures r.None? <==> AllSpace(newChatName, JsWhitespace)
    ensures r.Some? ==> r.value == Trim(newChatName, JsWhitespace) && r.value != []
  {
    var username := Trim(newChatName, JsWhitespace);
    if username == [] then None else Some(username)
  }

  /** `sendMessage`'s check: the trimmed text and the selected conversation, unless either is missing. */
  function MessageRequest(msgText: string, selectedId: Option<int>): (r: Option<Outgoing>)
    ensures r.None? <==> AllSpace(msgText, JsWhitespace) || !Selected(selectedId)
    ensures r.Some? ==> r.value == Outgoing(selectedId.value, Trim(msgText, JsWhitespace))
    ensures r.Some? ==> r.value.conversationId != 0 && r.value.text != []
  {
    var text := Trim(msgText, JsWhitespace);
    if text == [] || !Selected(selectedId) then None else Some(Outgoing(selectedId.value, text))
  }

  /** The message shown before the server has confirmed it. */
  function Optimistic(out: Outgoing, sender: string, now: nat, createdAt: string): Message {
    Message(TempId("temp-" + NatToDecimal(now)), out.conversationId, sender, out.text, createdAt)
  }

  /**
   * The outcome of the requests `handleAuthSubmit` awaits: in register mode
   * the registration first, whose failure ends the attempt, then the login,
   * which yields the access token.
   */
  function AuthOutcome(mode: AuthMode, registered: Result<Profile, string>, login: Result<string, string>): (r: Result<string, string>)
    ensures mode == RegisterMode && registered.Err? ==> r == Err(registered.error)
    ensures mode == LoginMode || registered.Ok? ==> r == login
  {
    if mode == RegisterMode && registered.Err? then Err(registered.error) else login
  }

  /** A conversation is listed exactly when it is counted. */
  lemma {:induction false} CountIdZero(cs: seq<Conversation>, id: int)
    ensures CountId(cs, id) == 0 <==> !HasId(cs, id)
  {
    if cs != [] {
      CountIdZero(cs[1..], id);
      assert HasId(cs, id) <==> cs[0].id == id || HasId(cs[1..], id) by {
        if HasId(cs, id) && cs[0].id != id {
          var k :| 0 <= k < |cs| && cs[k].id == id;
          assert cs[1..][k - 1].id == id;
        }
        if HasId(cs[1..], id) {
          var k :| 0 <= k < |cs[1..]| && cs[1..][k].id == id;
          assert cs[k + 1].id == id;
        }
      }
    }
  }

  /** In a list without repeated ids, every id is counted at most once. */
  lemma {:induction false} DistinctCountsOnce(cs: seq<Conversation>, id: int)
    requires DistinctIds(cs)
    ensures CountId(cs, id) <= 1
  {
    if cs != [] {
      DistinctCountsOnce(cs[1..], id);
      if cs[0].id == id {
        CountIdZero(cs[1..], id);
      }
    }
  }

  /**
   * After `startChat` succeeds the conversation's id is listed exactly once,
   * provided it was listed at most once before; a list without repeated ids
   * keeps that property.
   */
  lemma StartedConversationListedOnce(prev: seq<Conversation>, convo: Conversation)
    requires CountId(prev, convo.id) <= 1
    ensures CountId(WithConversation(prev, convo), convo.id) == 1
    ensures DistinctIds(prev) ==> DistinctIds(WithConversation(prev, convo))
  {
    CountIdZero(prev, convo.id);
    var r := WithConversation(prev, convo);
    if !HasId(prev, convo.id) {
      assert r[1..] == prev;
      if DistinctIds(prev) {
        forall i, j | 0 <= i < j < |r|
          ensures r[i].id != r[j].id
        {
          if i == 0 {
            assert r[j] == prev[j - 1];
          } else {
            assert r[i] == prev[i - 1] && r[j] == prev[j - 1];
          }
        }
      }
    }
  }

  /** A poll changes the selection only to the first listed conversation, and polling again changes nothing more. */
  lemma AutoSelectSettles(current: Option<int>, data: seq<Conversation>)
    ensures AutoSelect(current, data) != current ==> data != [] && AutoSelect(current, data) == Some(data[0].id)
    ensures AutoSelect(AutoSelect(current, data), data) == AutoSelect(current, data)
  {
  }

  /** Scrolling further down never turns "near the bottom" off; the very bottom is near it. */
  lemma NearBottomMonotone(v: Viewport, top: real)
    requires v.scrollTop <= top
    ensures NearBottom(v) ==> NearBottom(v.(scrollTop := top))
    ensures v.scrollTop + v.clientHeight == v.scrollHeight ==> NearBottom(v)
  {
  }

  /**
   * An HTTP error from `api` always has a non-empty message, so the handlers'
   * fallbacks ("Auth failed.", "Failed to start chat", "Failed to send")
   * show only for a `fetch` that failed with an empty message.
   */
  lemma HttpErrorsKeepTheirMessage<T>(reply: Client.Reply<T>, fallback: string)
    requires reply.Responded? && !Client.Is2xx(reply.status)
    ensures Client.Api(reply).Err? && MessageOr(Client.Api(reply).error, fallback) == Client.Api(reply).error
  {
  }

  // ---------------------------------------------------------------------------
  // The component
  // ---------------------------------------------------------------------------

  /** The state of `App`: its `useState` values and the two refs the handlers read. */
  class App {
    /** The "token" entry of `localStorage`. */
    var storedToken: string
    var token: string
    var me: Option<Profile>
    var authMode: AuthMode
    var authUser: string
    var authPass: string
    var authError: string
    var conversations: seq<Conversation>
    var selectedId: Option<int>
    var newChatName: string
    var chatError: string
    var messages: seq<Message>
    var msgText: string
    var msgError: string
    var loadingConvos: bool
    var loadingMsgs: bool
    var drawerOpen: bool
    /** `shouldAutoScrollRef.current`. */
    var autoScroll: bool

    /** First render: the token comes from storage (`getItem(...) || ""`), everything else is empty. */
    constructor (stored: Option<string>)
      ensures storedToken == stored.GetOr("") && token == stored.GetOr("")
      ensures me.None? && authMode == LoginMode && authUser == [] && authPass == [] && authError == []
      ensures conversations == [] && selectedId.None? && newChatName == [] && chatError == []
      ensures messages == [] && msgText == [] && msgError == []
      ensures !loadingConvos && !loadingMsgs && !drawerOpen && autoScroll
    {
      storedToken := stored.GetOr("");
      token := stored.GetOr("");
      me := None;
      authMode := LoginMode;
      authUser, authPass, authError := [], [], [];
      conversations := [];
      selectedId := None;
      newChatName, chatError := [], [];
      messages := [];
      msgText, msgError := [], [];
      loadingConvos, loadingMsgs := false, false;
      drawerOpen := false;
      autoScroll := true;
    }

    /** `logout()`: clears the session, the conversations, the selection and the messages; input fields stay. */
    method Logout()
      modifies this`storedToken, this`token, this`me, this`conversations, this`selectedId, this`messages, this`drawerOpen
      ensures storedToken == [] && token == [] && me.None?
      ensures conversations == [] && selectedId.None? && messages == [] && !drawerOpen
    {
      storedToken := [];
      token := [];
      me := None;
      conversations := [];
      selectedId := None;
      messages := [];
      drawerOpen := false;
    }

    /** The profile effect starts: without a token it clears `me`; with one it asks `/auth/me`. */
    method BeginProfileLoad() returns (requested: bool)
      modifies this`me
      ensures requested <==> token != []
      ensures !requested ==> me.None?
      ensures requested ==> me == old(me)
    {
      requested := token != [];
      if !requested {
        me := None;
      }
    }

    /**
     * `/auth/me` settled. Success stores the profile unless the effect was
     * torn down; any failure removes the stored token, and, unless torn
     * down, also ends the session.
     */
    method ProfileLoaded(reply: Result<Profile, string>, cancelled: bool)
      modifies this`storedToken, this`token, this`me
      ensures reply.Ok? ==> storedToken == old(storedToken) && token == old(token)
      ensures reply.Ok? ==> me == (if cancelled then old(me) else Some(reply.value))
      ensures reply.Err? ==> storedToken == []
      ensures reply.Err? && !cancelled ==> token == [] && me.None?
      ensures reply.Err? && cancelled ==> token == old(token) && me == old(me)
    {
      match reply {
        case Ok(profile) =>
          if !cancelled {
            me := Some(profile);
          }
        case Err(_) =>
          storedToken := [];
          if !cancelled {
            token := [];
            me := None;
          }
      }
    }

    /**
     * The conversation poll effect starts: it runs only while signed in (a
     * token and a profile), and its first tick marks the list as loading and
     * asks `/conversations`.
     */
    method BeginConversationPoll() returns (requested: bool)
      modifies this`loadingConvos
      ensures requested <==> token != [] && me.Some?
      ensures requested ==> loadingConvos
      ensures !requested ==> loadingConvos == old(loadingConvos)
    {
      requested := token != [] && me.Some?;
      if requested {
        loadingConvos := true;
      }
    }

    /**
     * A conversation poll settled. Unless the effect was torn down, a list
     * replaces the old one wholesale and auto-selects its first entry when
     * nothing is selected; a failure is ignored. A tick torn down while its
     * request was in flight writes nothing when the request settles.
     */
    method ConversationsPolled(reply: Result<seq<Conversation>, string>, cancelled: bool)
      modifies this`conversations, this`selectedId, this`loadingConvos
      ensures cancelled ==> conversations == old(conversations) && selectedId == old(selectedId) && loadingConvos == old(loadingConvos)
      ensures !cancelled ==> !loadingConvos
      ensures !cancelled && reply.Ok? ==> conversations == reply.value && selectedId == AutoSelect(old(selectedId), reply.value)
      ensures !cancelled && reply.Err? ==> conversations == old(conversations) && selectedId == old(selectedId)
    {
      if cancelled {
        return;
      }
      if reply.Ok? {
        conversations := reply.value;
        if |reply.value| > 0 && !Selected(selectedId) {
          selectedId := Some(reply.value[0].id);
        }
      }
      loadingConvos := false;
    }

    /**
     * The message poll effect starts: it runs only while signed in with a
     * (truthy) selected conversation, and its first tick marks the messages
     * as loading and asks for that conversation's messages.
     */
    method BeginMessagePoll() returns (requested: Option<int>)
      modifies this`loadingMsgs
      ensures requested.Some? <==> token != [] && me.Some? && Selected(selectedId)
      ensures requested.Some? ==> requested == selectedId && loadingMsgs
      ensures requested.None? ==> loadingMsgs == old(loadingMsgs)
    {
      requested := None;
      if token != [] && me.Some? && Selected(selectedId) {
        requested := selectedId;
        loadingMsgs := true;
      }
    }

    /**
     * A message poll settled. Unless torn down, a list replaces the messages
     * wholesale (dropping optimistic ones) and the view scrolls to the bottom
     * exactly when the auto-scroll flag is set.
     */
    method MessagesPolled(reply: Result<seq<Message>, string>, cancelled: bool) returns (scrollToBottom: bool)
      modifies this`messages, this`loadingMsgs
      ensures cancelled ==> messages == old(messages) && loadingMsgs == old(loadingMsgs) && !scrollToBottom
      ensures !cancelled ==> !loadingMsgs
      ensures !cancelled && reply.Ok? ==> messages == reply.value && scrollToBottom == autoScroll
      ensures !cancelled && reply.Err? ==> messages == old(messages) && !scrollToBottom
    {
      scrollToBottom := false;
      if cancelled {
        return;
      }
      if reply.Ok? {
        messages := reply.value;
        scrollToBottom := autoScroll;
      }
      loadingMsgs := false;
    }

    /** `onScrollMessages()`: with a mounted list, remember whether it is near the bottom. */
    method ScrollMessages(list: Option<Viewport>)
      modifies this`autoScroll
      ensures list.Some? ==> autoScroll == NearBottom(list.value)
      ensures list.None? ==> autoScroll == old(autoScroll)
    {
      if list.Some? {
        autoScroll := NearBottom(list.value);
      }
    }

    /**
     * Clicking a conversation in a sidebar: it is selected, and the drawer is
     * closed only by the drawer's own sidebar (the desktop sidebar gets no
     * `setDrawerOpen`).
     */
    method SelectConversation(id: int, inDrawer: bool)
      modifies this`selectedId, this`drawerOpen
      ensures selectedId == Some(id)
      ensures drawerOpen == (if inDrawer then false else old(drawerOpen))
    {
      selectedId := Some(id);
      if inDrawer {
        drawerOpen := false;
      }
    }

    /** The "Log in" and "Sign up" tabs. */
    method SetAuthMode(mode: AuthMode)
      modifies this`authMode
      ensures authMode == mode
    {
      authMode := mode;
    }

    /**
     * `handleAuthSubmit` up to its first `await`: validate the form and say
     * what to send, if anything, and in which mode: in register mode the
     * credentials go to `/auth/register` first.
     */
    method SubmitAuth() returns (request: Option<Credentials>, mode: AuthMode)
      modifies this`authError
      ensures request == AuthRequest(authUser, authPass) && mode == authMode
      ensures request.None? ==> authError == AuthInputMissing
      ensures request.Some? ==> authError == []
    {
      authError := [];
      request := AuthRequest(authUser, authPass);
      mode := authMode;
      if request.None? {
        authError := AuthInputMissing;
      }
    }

    /**
     * `handleAuthSubmit` after its requests settled. `mode` is the mode the
     * submitting render saw (the one `SubmitAuth` returned); in register mode
     * `registered` is the outcome of `/auth/register`, and `login` that of
     * `/auth/login`. Store the token and clear the password, or show the error.
     */
    method AuthCompleted(mode: AuthMode, registered: Result<Profile, string>, login: Result<string, string>)
      modifies this`storedToken, this`token, this`authPass, this`authError
      ensures var outcome := AuthOutcome(mode, registered, login);
        && (outcome.Ok? ==> storedToken == outcome.value && token == outcome.value && authPass == [])
        && (outcome.Ok? ==> authError == old(authError))
        && (outcome.Err? ==> authError == MessageOr(outcome.error, AuthFailed))
        && (outcome.Err? ==> storedToken == old(storedToken) && token == old(token) && authPass == old(authPass))
    {
      var outcome := AuthOutcome(mode, registered, login);
      match outcome {
        case Ok(accessToken) =>
          storedToken := accessToken;
          token := accessToken;
          authPass := [];
        case Err(message) =>
          authError := MessageOr(message, AuthFailed);
      }
    }

    /** `startChat` up to its `await`: clear the error and say whom to open a conversation with, if anyone. */
    method StartChat() returns (request: Option<string>)
      modifies this`chatError
      ensures chatError == [] && request == ChatRequest(newChatName)
    {
      chatError := [];
      request := ChatRequest(newChatName);
    }

    /**
     * `startChat` after `POST /conversations` settled: the conversation is
     * listed once and selected, the name is cleared and the drawer closed;
     * or the error is shown.
     */
    method ChatStarted(reply: Result<Conversation, string>)
      modifies this`newChatName, this`conversations, this`selectedId, this`drawerOpen, this`chatError
      ensures reply.Ok? ==> newChatName == [] && !drawerOpen && selectedId == Some(reply.value.id)
      ensures reply.Ok? ==> conversations == WithConversation(old(conversations), reply.value)
      ensures reply.Ok? ==> chatError == old(chatError)
      ensures reply.Err? ==> chatError == MessageOr(reply.error, StartChatFailed)
      ensures reply.Err? ==> newChatName == old(newChatName) && conversations == old(conversations)
      ensures reply.Err? ==> selectedId == old(selectedId) && drawerOpen == old(drawerOpen)
    {
      match reply {
        case Ok(convo) =>
          newChatName := [];
          conversations := WithConversation(conversations, convo);
          selectedId := Some(convo.id);
          drawerOpen := false;
        case Err(message) =>
          chatError := MessageOr(message, StartChatFailed);
      }
    }

    /**
     * `sendMessage` up to its `await`: with non-blank text and a selected
     * conversation, append one optimistic message, clear the input and force
     * auto-scroll, and say what to post. `now` is `Date.now()` and
     * `createdAt` the ISO time.
     */
    method SendMessage(now: nat, createdAt: string) returns (request: Option<Outgoing>)
      modifies this`messages, this`msgText, this`msgError, this`autoScroll
      ensures MessageRequest(old(msgText), selectedId).None? ==>
        request.None? && msgError == [] && unchanged(this`messages, this`msgText, this`autoScroll)
      ensures MessageRequest(old(msgText), selectedId).Some? && me.None? ==>
        request.None? && msgError == NoProfileError && unchanged(this`messages, this`msgText, this`autoScroll)
      ensures MessageRequest(old(msgText), selectedId).Some? && me.Some? ==>
        && request == MessageRequest(old(msgText), selectedId)
        && msgError == [] && msgText == [] && autoScroll
        && messages == old(messages) + [Optimistic(request.value, me.value.username, now, createdAt)]
    {
      msgError := [];
      var draft := MessageRequest(msgText, selectedId);
      if draft.None? {
        return None;
      }
      if me.None? {
        msgError := NoProfileError;
        return None;
      }
      messages := messages + [Optimistic(draft.value, me.value.username, now, createdAt)];
      msgText := [];
      autoScroll := true;
      request := draft;
    }

    /** `sendMessage` after its `POST` settled: a failure is shown; the optimistic message stays either way. */
    method MessageSent(reply: Result<Message, string>)
      modifies this`msgError
      ensures reply.Ok? ==> msgError == old(msgError)
      ensures reply.Err? ==> msgError == MessageOr(reply.error, SendFailed)
    {
      if reply.Err? {
        msgError := MessageOr(reply.error, SendFailed);
      }
    }
  }

  // ---------------------------------------------------------------------------
  // Scenarios: what callers of `App` can rely on
  // ---------------------------------------------------------------------------

  /** A conversation the user picked stays selected when a poll, run while signed in, lists another one first. */
  method UserSelectionSurvivesPoll(picked: int, first: Conversation, rest: seq<Conversation>)
    returns (polled: bool, selected: Option<int>)
    requires picked != 0 && first.id != picked
    ensures polled && selected == Some(picked)
  {
    var app := new App(Some("token"));
    app.ProfileLoaded(Ok(Profile(1, "ann")), false);
    app.SelectConversation(picked, false);
    polled := app.BeginConversationPoll();
    app.ConversationsPolled(Ok([first] + rest), false);
    selected := app.selectedId;
  }

  /** Signed in with nothing selected, a poll selects the first conversation it lists, which starts the message poll. */
  method PollSelectsFirst(first: Conversation, rest: seq<Conversation>)
    returns (polled: bool, selected: Option<int>, messagesFrom: Option<int>)
    requires first.id != 0
    ensures polled && selected == Some(first.id) && messagesFrom == Some(first.id)
  {
    var app := new App(Some("token"));
    app.ProfileLoaded(Ok(Profile(1, "ann")), false);
    polled := app.BeginConversationPoll();
    app.ConversationsPolled(Ok([first] + rest), false);
    selected := app.selectedId;
    messagesFrom := app.BeginMessagePoll();
  }

  /** Signed out, neither poll runs. */
  method NoPollWhenSignedOut() returns (conversations: bool, messages: Option<int>)
    ensures !conversations && messages.None?
  {
    var app := new App(None);
    app.SelectConversation(3, false);
    conversations := app.BeginConversationPoll();
    messages := app.BeginMessagePoll();
  }

  /**
   * On the "Sign up" tab the form registers first: a refused registration
   * shows the server's message and leaves the user signed out, whatever the
   * login would have returned.
   */
  method SignUpShowsRegistrationError(login: Result<string, string>) returns (error: string, token: string)
    ensures error == "Username already taken" && token == []
  {
    var app := new App(None);
    app.SetAuthMode(RegisterMode);
    app.authUser, app.authPass := "ann", "secret1";
    TrimmedIsFixed("ann", JsWhitespace);
    var request, mode := app.SubmitAuth();
    app.AuthCompleted(mode, Err("Username already taken"), login);
    error, token := app.authError, app.token;
  }

  /** Sending "hello" in conversation 5 shows it at once, before any reply, and a failed post does not remove it. */
  method SendShowsMessageAtOnce(now: nat, createdAt: string) returns (shown: seq<Message>)
    ensures |shown| == 1 && shown[0].conversationId == 5 && shown[0].text == "hello" && shown[0].senderUsername == "ann"
  {
    var app := new App(Some("token"));
    app.ProfileLoaded(Ok(Profile(1, "ann")), false);
    app.SelectConversation(5, true);
    app.msgText := "hello";
    assert Trim("hello", JsWhitespace) == "hello" by {
      TrimmedIsFixed("hello", JsWhitespace);
    }
    var request := app.SendMessage(now, createdAt);
    app.MessageSent(Err("Request failed (500)"));
    shown := app.messages;
  }
}

/** `UserContextView`: building a context from a user's links, and the two
    model-backed endpoints `chat` and `page_summary`. Page fetching with text
    extraction, and the language model, are oracles passed in. */
module ContextView {
  import opened Wrappers
  import opened Text
  import opened Http
  import opened Models
  import opened RateLimit

  // ---------------------------------------------------------------------------
  // Building the context text
  // ---------------------------------------------------------------------------

  /** Fetch-and-extract, as an oracle: the `i`-th fetch of a build, of `url`,
      yields the page's visible text, or `None` when the request or the
      parsing raised. */
  type Fetcher = (nat, string) -> Option<string>

  /** The piece one link contributes to the context text: it opens with the
      link, carries the page's text when there is one, and closes with the
      separator. */
  function Fragment(url: string, page: Option<string>): (f: string)
    ensures StartsAt(f, 0, "Link: " + url + ", ")
    ensures page.Some? ==> StartsAt(f, |"Link: " + url + ", Parsed content: "|, page.value)
  {
    match page
    case Some(text) => "Link: " + url + ", Parsed content: " + text + ", "
    case None => "Link: " + url + ", "
  }

  /** A fragment for `url`, in either of its two forms. */
  ghost predicate IsFragmentFor(f: string, url: string) {
    f == "Link: " + url + ", " || exists text :: f == "Link: " + url + ", Parsed content: " + text + ", "
  }

  /** One fragment per link, in order. */
  function Fragments(urls: seq<string>, fetch: Fetcher): (fs: seq<string>)
    ensures |fs| == |urls|
    ensures forall i :: 0 <= i < |urls| ==> fs[i] == Fragment(urls[i], fetch(i, urls[i]))
  {
    seq(|urls|, i requires 0 <= i < |urls| => Fragment(urls[i], fetch(i, urls[i])))
  }

  /** Left-to-right concatenation, as repeated `+=`. */
  function Concat(parts: seq<string>): string {
    if parts == [] then [] else Concat(parts[..|parts| - 1]) + parts[|parts| - 1]
  }

  lemma {:induction false} ConcatAppend(a: seq<string>, b: seq<string>)
    ensures Concat(a + b) == Concat(a) + Concat(b)
    decreases |b|
  {
    if b == [] {
      assert a + b == a;
    } else {
      var b' := b[..|b| - 1];
      assert (a + b)[..|a + b| - 1] == a + b';
      ConcatAppend(a, b');
    }
  }

  /** The context text of a build. */
  function ContextText(urls: seq<string>, fetch: Fetcher): string {
    Concat(Fragments(urls, fetch))
  }

  /** One more part extends the concatenation by that part. */
  lemma ConcatStep(parts: seq<string>, i: nat)
    requires i < |parts|
    ensures Concat(parts[..i + 1]) == Concat(parts[..i]) + parts[i]
  {
    assert parts[..i + 1][..i] == parts[..i];
  }

  /** The loop of `create_context`: one fragment appended per link; a failed
      fetch contributes the short fragment and the loop goes on. */
  method BuildText(urls: seq<string>, fetch: Fetcher) returns (text: string)
    ensures text == ContextText(urls, fetch)
  {
    ghost var fragments := Fragments(urls, fetch);
    text := "";
    var i := 0;
    while i < |urls|
      invariant 0 <= i <= |urls|
      invariant text == Concat(fragments[..i])
    {
      var piece;
      match fetch(i, urls[i]) {
        case Some(pageText) =>
          piece := "Link: " + urls[i] + ", Parsed content: " + pageText + ", ";
        case None =>
          piece := "Link: " + urls[i] + ", ";
      }
      assert piece == fragments[i];
      ConcatStep(fragments, i);
      text := text + piece;
      i := i + 1;
    }
    assert fragments[..i] == fragments;
  }

  lemma ConcatSingle(x: string)
    ensures Concat([x]) == x
  {
    assert [x][..0] == [];
  }

  /** Every fragment names its link, whether or not the fetch succeeded. */
  lemma FragmentNamesLink(url: string, page: Option<string>)
    ensures IsFragmentFor(Fragment(url, page), url)
  {
  }

  /** The text splits at every link: what comes before link `k`, exactly
      link `k`'s fragment, then what comes after. So every link contributes
      exactly one fragment, in order, and a failure at one link does not
      disturb the others. */
  lemma ContextTextAt(urls: seq<string>, fetch: Fetcher, k: nat)
    requires k < |urls|
    ensures ContextText(urls, fetch)
         == Concat(Fragments(urls, fetch)[..k]) + Fragment(urls[k], fetch(k, urls[k])) + Concat(Fragments(urls, fetch)[k + 1..])
  {
    var fs := Fragments(urls, fetch);
    var pre, f, post := fs[..k], fs[k], fs[k + 1..];
    assert fs == pre + [f] + post;
    ConcatAppend(pre + [f], post);
    ConcatAppend(pre, [f]);
    ConcatSingle(f);
  }

  /** Two links, one that yields `Hello` and one whose fetch fails. */
  lemma ContextTextExample(a: string, b: string)
    ensures ContextText([a, b], (i: nat, u: string) => if i == 0 then Some("Hello") else None)
         == Fragment(a, Some("Hello")) + Fragment(b, None)
  {
    var fetch := (i: nat, u: string) => if i == 0 then Some("Hello") else None;
    var fs := Fragments([a, b], fetch);
    assert fs == [Fragment(a, Some("Hello")), Fragment(b, None)];
    assert fs[..1] == [fs[0]];
    ConcatSingle(fs[0]);
  }

  /** Every fragment starts with `Link: ` and ends with `, `. */
  lemma FragmentEnds(url: string, page: Option<string>)
    ensures var f := Fragment(url, page);
      |f| >= 2 && f[0] == 'L' && f[|f| - 2] == ',' && f[|f| - 1] == ' '
  {
  }

  /** A text built from at least one link starts like its first fragment and
      ends like its last. */
  lemma ContextTextEnds(urls: seq<string>, fetch: Fetcher)
    requires urls != []
    ensures var t := ContextText(urls, fetch);
      |t| >= 2 && t[0] == 'L' && t[|t| - 2] == ',' && t[|t| - 1] == ' '
  {
    var n := |urls|;
    FragmentEnds(urls[0], fetch(0, urls[0]));
    FragmentEnds(urls[n - 1], fetch(n - 1, urls[n - 1]));
    ConcatEnds(Fragments(urls, fetch));
  }

  /** A concatenation of pieces starts with its first piece's first character
      and ends with its last piece's last two. */
  lemma ConcatEnds(fs: seq<string>)
    requires fs != [] && |fs[0]| >= 2 && |fs[|fs| - 1]| >= 2
    ensures var t := Concat(fs);
      |t| >= 2 && t[0] == fs[0][0] && t[|t| - 2..] == fs[|fs| - 1][|fs[|fs| - 1]| - 2..]
  {
    var n := |fs|;
    assert fs == [fs[0]] + fs[1..];
    ConcatAppend([fs[0]], fs[1..]);
    ConcatSingle(fs[0]);
    assert Concat(fs) == Concat(fs[..n - 1]) + fs[n - 1];
  }

  /** What the serializer keeps of a context text (its `CharField` trims
      surrounding whitespace): exactly the final space goes, and a text built
      from no links is blank. */
  lemma TrimContextText(urls: seq<string>, fetch: Fetcher)
    ensures var t := ContextText(urls, fetch);
      && (urls == [] <==> Blank(t))
      && (urls != [] ==> |t| >= 1 && Trim(t) == t[..|t| - 1])
  {
    var t := ContextText(urls, fetch);
    if urls == [] {
      assert Fragments(urls, fetch) == [];
      assert t == [];
    } else {
      ContextTextEnds(urls, fetch);
      TrimDropsFinalSpace(t);
    }
  }

  /** A text that starts with `L` and ends with `, ` trims to all but its
      final space. */
  lemma TrimDropsFinalSpace(t: string)
    requires |t| >= 2 && t[0] == 'L' && t[|t| - 2] == ',' && t[|t| - 1] == ' '
    ensures Trim(t) == t[..|t| - 1]
  {
    var core := t[..|t| - 1];
    var none: string := [];
    assert t == none + core + [' '];
    assert 'L' !in Whitespace && ',' !in Whitespace && ' ' in Whitespace;
    assert Unpadded(core, Whitespace);
    assert AllIn([' '], Whitespace);
    StripOfPadded(none, core, [' '], Whitespace);
  }

  // ---------------------------------------------------------------------------
  // create_context
  // ---------------------------------------------------------------------------

  /** The links a build uses: the stored links whose key is among `linkIds`
      and whose owner is the requesting user, in key order. */
  function ResolveLinks(st: Store, linkIds: seq<int>, owner: nat): (ids: seq<nat>)
    requires Valid(st)
    ensures StrictlyIncreasing(ids)
    ensures forall id :: id in ids <==> id in st.links && id in linkIds && st.links[id].owner == owner
  {
    SelectLinks(st, (id: nat, l: UserLink) => id in linkIds && l.owner == owner)
  }

  /** Only which keys are requested matters: not their order, not repeats. */
  lemma ResolveLinksSetwise(st: Store, a: seq<int>, b: seq<int>, owner: nat)
    requires Valid(st)
    requires forall x :: x in a <==> x in b
    ensures ResolveLinks(st, a, owner) == ResolveLinks(st, b, owner)
  {
    StrictlyIncreasingUnique(ResolveLinks(st, a, owner), ResolveLinks(st, b, owner));
  }

  function LinkUrls(st: Store, ids: seq<nat>): (urls: seq<string>)
    requires forall i :: 0 <= i < |ids| ==> ids[i] in st.links
    ensures |urls| == |ids|
    ensures forall i :: 0 <= i < |ids| ==> urls[i] == st.links[ids[i]].url
  {
    seq(|ids|, i requires 0 <= i < |ids| => st.links[ids[i]].url)
  }

  datatype ContextRequest = ContextRequest(email: Option<string>, linkIds: Option<seq<int>>)

  /** What the view hands to the serializer. */
  datatype ContextDraft = ContextDraft(links: seq<int>, owner: nat, text: string)

  const SaveContextError := "Failed to save user link!"

  /** The serializer's verdict on a draft whose text it has already trimmed:
      the text is not blank, the relation field accepts only keys of existing
      links, and its other rules are the oracle `accept`. */
  predicate SaveAccepted(st: Store, draft: ContextDraft, accept: ContextDraft -> bool) {
    && draft.text != []
    && accept(draft)
    && forall l :: l in draft.links ==> 0 <= l && l as nat in st.links
  }

  /** The join rows a saved context gets: one per requested key. */
  function JoinRows(cid: nat, linkIds: seq<int>): set<ContextLink> {
    set l: nat | l in linkIds :: ContextLink(cid, l)
  }

  /** Saving a context under the next primary key, with its join rows. */
  function AddContext(st: Store, owner: nat, text: string, linkIds: seq<int>): (r: Store)
    requires Valid(st) && owner in st.users
    requires forall l :: l in linkIds ==> 0 <= l && l as nat in st.links
    ensures Valid(r)
    ensures st.nextContextId !in st.contexts
    ensures r.contexts == st.contexts[st.nextContextId := Context(owner, text)]
    ensures r.contextLinks == st.contextLinks + JoinRows(st.nextContextId, linkIds)
    ensures r.users == st.users && r.links == st.links
  {
    var cid := st.nextContextId;
    st.(contexts := st.contexts[cid := Context(owner, text)],
        contextLinks := st.contextLinks + JoinRows(cid, linkIds),
        nextContextId := cid + 1)
  }

  /** `create_context`. The text covers only the caller's own links, but the
      context is saved with the raw `link_ids`; the serializer stores the text
      trimmed (`TrimContextText`). */
  method CreateContext(st: Store, req: ContextRequest, fetch: Fetcher, accept: ContextDraft -> bool) returns (r: Outcome<Store>)
    requires Valid(st)
    ensures Valid(r.state)
    ensures req.email.None? ==> r == Outcome(st, Uncaught("AttributeError"))
    ensures req.email.Some? ==>
      match UserWithEmail(st, StripQuotes(req.email.value))
      case None => r == Outcome(st, Uncaught("User.DoesNotExist"))
      case Some(uid) =>
        && (req.linkIds.None? ==> r == Outcome(st, Uncaught("TypeError")))
        && (req.linkIds.Some? ==>
              var text := Trim(ContextText(LinkUrls(st, ResolveLinks(st, req.linkIds.value, uid)), fetch));
              var draft := ContextDraft(req.linkIds.value, uid, text);
              && (!SaveAccepted(st, draft, accept) ==> r == Outcome(st, Respond(Status400BadRequest, ErrorBody(SaveContextError))))
              && (SaveAccepted(st, draft, accept) ==>
                    && r.reply == Respond(Status201Created, ContextId(st.nextContextId))
                    && st.nextContextId !in st.contexts
                    && r.state.contexts == st.contexts[st.nextContextId := Context(uid, text)]
                    && r.state.contextLinks == st.contextLinks + JoinRows(st.nextContextId, req.linkIds.value)
                    && r.state.users == st.users && r.state.links == st.links))
  {
    if req.email.None? {
      return Outcome(st, Uncaught("AttributeError"));
    }
    var found := UserWithEmail(st, StripQuotes(req.email.value));
    if found.None? {
      return Outcome(st, Uncaught("User.DoesNotExist"));
    }
    if req.linkIds.None? {
      return Outcome(st, Uncaught("TypeError"));
    }
    var uid := found.value;
    var ids := ResolveLinks(st, req.linkIds.value, uid);
    var built := BuildText(LinkUrls(st, ids), fetch);
    var text := Trim(built);
    var draft := ContextDraft(req.linkIds.value, uid, text);
    if !SaveAccepted(st, draft, accept) {
      return Outcome(st, Respond(Status400BadRequest, ErrorBody(SaveContextError)));
    }
    r := Outcome(AddContext(st, uid, text, req.linkIds.value), Respond(Status201Created, ContextId(st.nextContextId)));
  }

  // ---------------------------------------------------------------------------
  // chat and page_summary
  // ---------------------------------------------------------------------------

  /** What the language model is handed: the system and human message
      templates, and the template variables. */
  datatype ModelCall = ModelCall(system: string, human: string, variables: map<string, string>)

  /** The model, as an oracle: the response's content, or the text of the
      exception it raised. */
  type Model = ModelCall -> Result<string, string>

  /** Both views build the prompt from two empty templates and hand `invoke`
      the text as the only variable. Neither template has a `{text}`
      placeholder, so the variable is handed over but never formatted into a
      message. */
  function PromptFor(text: string): (c: ModelCall)
    ensures c.variables.Keys == {"text"} && c.variables["text"] == text
    ensures !Contains(c.system, "{text}") && !Contains(c.human, "{text}")
  {
    ModelCall("", "", map["text" := text])
  }

  /** A run of a model-backed view: the reply, and the model call it made. */
  datatype ChatRun = ChatRun(reply: Reply, call: Option<ModelCall>)

  datatype ChatRequest = ChatRequest(contextId: Option<int>, userInput: Option<string>)

  const ChatInvalidError := "Failed to save user link!"
  const ContextMissingError := "Context not found!"

  /** Python truthiness of the two request fields. */
  predicate ChatRequestComplete(req: ChatRequest) {
    && req.contextId.Some? && req.contextId.value != 0
    && req.userInput.Some? && req.userInput.value != []
  }

  predicate HasContext(st: Store, id: int) {
    0 <= id && id as nat in st.contexts
  }

  /** The reply to a model outcome, shared by both views up to the way a
      throttled call is answered. */
  function AnswerFor(outcome: Result<string, string>, throttled: nat -> Reply): (r: Reply) {
    match outcome
    case Success(text) => Respond(Status200Ok, AiResponse(text))
    case Failure(message) =>
      match Classify(message)
      case RateLimited(seconds) => throttled(seconds)
      case OtherFailure(m) => Respond(Status500ServerError, ErrorBody(ModelFailurePrefix + m))
  }

  /** `chat`: validate both fields, load the context, hand `invoke` the two
      empty templates with the stored text as the only variable, classify a
      failure. A throttled call builds
      `Throttled(detail=<object>, wait=n)`; the framework's constructor joins
      the detail with a text sentence using `' '.join`, which takes strings
      only, so the construction raises `TypeError` and the request fails
      with a server error. */
  function Chat(st: Store, req: ChatRequest, model: Model): (run: ChatRun)
    ensures !ChatRequestComplete(req) ==> run == ChatRun(Respond(Status400BadRequest, ErrorBody(ChatInvalidError)), None)
    ensures ChatRequestComplete(req) && !HasContext(st, req.contextId.value) ==>
      run == ChatRun(Respond(Status404NotFound, ErrorBody(ContextMissingError)), None)
    ensures run.call.Some? <==> ChatRequestComplete(req) && HasContext(st, req.contextId.value)
    ensures run.call.Some? ==>
      && run.call.value == PromptFor(st.contexts[req.contextId.value as nat].text)
      && run.call.value.variables.Keys == {"text"}
    ensures run.call.Some? ==>
      match model(run.call.value)
      case Success(text) => run.reply == Respond(Status200Ok, AiResponse(text))
      case Failure(m) =>
        && (IsRateLimitMessage(m) ==> run.reply == Uncaught("TypeError"))
        && (!IsRateLimitMessage(m) ==> run.reply == Respond(Status500ServerError, ErrorBody(ModelFailurePrefix + m)))
  {
    if !ChatRequestComplete(req) then
      ChatRun(Respond(Status400BadRequest, ErrorBody(ChatInvalidError)), None)
    else if !HasContext(st, req.contextId.value) then
      ChatRun(Respond(Status404NotFound, ErrorBody(ContextMissingError)), None)
    else
      var call := PromptFor(st.contexts[req.contextId.value as nat].text);
      ChatRun(AnswerFor(model(call), (n: nat) => Uncaught("TypeError")), Some(call))
  }

  /** `chat` as intended: a throttled call raises `Throttled` carrying the
      throttle body and the parsed retry-after as its wait. */
  function ChatIntended(st: Store, req: ChatRequest, model: Model): (run: ChatRun)
    ensures run.call == Chat(st, req, model).call
    ensures run.call.Some? ==>
      match model(run.call.value)
      case Success(text) => run.reply == Respond(Status200Ok, AiResponse(text))
      case Failure(m) =>
        && (IsRateLimitMessage(m) ==> run.reply == RaiseThrottled(ThrottleBody(RetryAfter(m)), RetryAfter(m)))
        && (!IsRateLimitMessage(m) ==> run.reply == Respond(Status500ServerError, ErrorBody(ModelFailurePrefix + m)))
    ensures run.call.None? ==> run == Chat(st, req, model)
  {
    if !ChatRequestComplete(req) then
      ChatRun(Respond(Status400BadRequest, ErrorBody(ChatInvalidError)), None)
    else if !HasContext(st, req.contextId.value) then
      ChatRun(Respond(Status404NotFound, ErrorBody(ContextMissingError)), None)
    else
      var call := PromptFor(st.contexts[req.contextId.value as nat].text);
      ChatRun(AnswerFor(model(call), (n: nat) => RaiseThrottled(ThrottleBody(n), n)), Some(call))
  }

  /** The two agree on every request, except that where the intended view
      raises `Throttled` the view as written fails with `TypeError`. */
  lemma ChatDiffersOnlyWhenThrottled(st: Store, req: ChatRequest, model: Model)
    ensures ChatIntended(st, req, model).reply.RaiseThrottled? <==> Chat(st, req, model).reply == Uncaught("TypeError")
    ensures !ChatIntended(st, req, model).reply.RaiseThrottled? ==> Chat(st, req, model) == ChatIntended(st, req, model)
  {
  }

  /** A store holding one context, under key 1. */
  const OneContextStore := Store(
    map[1 := User("ann@example.org", "Ann", "Lee", true, false)],
    map[], map[1 := Context(1, "Link: https://example.org,")], {}, 2, 1, 2)

  /** A model that always fails with the rate-limit message of `RateLimit`'s
      example, asking for a wait of 2m30.5s. */
  const ThrottlingModel: Model := (c: ModelCall) => Failure(ExampleHead + "Please try again in 2m30.5s")

  /** On that failure the view as written answers with a server error where
      a throttled reply with a retry-after of 150 seconds was meant. */
  lemma ChatThrottleRaisesTypeError()
    ensures Chat(OneContextStore, ChatRequest(Some(1), Some("hi")), ThrottlingModel).reply == Uncaught("TypeError")
    ensures ChatIntended(OneContextStore, ChatRequest(Some(1), Some("hi")), ThrottlingModel).reply
         == RaiseThrottled(ThrottleBody(150), 150)
  {
    ClassifyParsedCooldown();
  }

  /** The user's utterance is required but does not reach the model: any two
      non-empty utterances give the same run. */
  lemma ChatIgnoresUserInput(st: Store, id: Option<int>, u1: string, u2: string, model: Model)
    requires u1 != [] && u2 != []
    ensures Chat(st, ChatRequest(id, Some(u1)), model) == Chat(st, ChatRequest(id, Some(u2)), model)
  {
  }

  /** How `f"{request_link}"` shows the link; a missing link prints as `None`. */
  function LinkText(link: Option<string>): string {
    match link
    case Some(l) => l
    case None => "None"
  }

  /** `page_summary`: one fragment for the requested link, then the same model
      call and classification as `chat`, except that a throttled call is
      answered with a 429 instead of raising. `page` is the fetch oracle's
      answer for the link; with no link the request itself fails. */
  function PageSummary(link: Option<string>, page: Option<string>, model: Model): (run: ChatRun)
    ensures var shown := if link.Some? then page else None;
      run.call == Some(PromptFor(Fragment(LinkText(link), shown)))
    ensures match model(run.call.value)
      case Success(text) => run.reply == Respond(Status200Ok, AiResponse(text))
      case Failure(m) =>
        && (IsRateLimitMessage(m) ==> run.reply == Respond(Status429TooManyRequests, ThrottleBody(RetryAfter(m))))
        && (!IsRateLimitMessage(m) ==> run.reply == Respond(Status500ServerError, ErrorBody(ModelFailurePrefix + m)))
  {
    var shown := if link.Some? then page else None;
    var call := PromptFor(Fragment(LinkText(link), shown));
    ChatRun(AnswerFor(model(call), (n: nat) => Respond(Status429TooManyRequests, ThrottleBody(n))), Some(call))
  }

  /** On the same model outcome, intended `chat` and `page_summary` answer
      with the same body and the same retry-after, but `chat` raises where
      `page_summary` responds. */
  lemma ThrottlingDiffersOnlyInCarrier(st: Store, req: ChatRequest, link: Option<string>, page: Option<string>, model: Model)
    requires ChatIntended(st, req, model).call.Some?
    requires model(ChatIntended(st, req, model).call.value) == model(PageSummary(link, page, model).call.value)
    ensures ChatIntended(st, req, model).reply.RaiseThrottled? ==>
      PageSummary(link, page, model).reply == Respond(Status429TooManyRequests, ChatIntended(st, req, model).reply.detail)
    ensures !ChatIntended(st, req, model).reply.RaiseThrottled? ==>
      PageSummary(link, page, model).reply == ChatIntended(st, req, model).reply
  {
  }
}

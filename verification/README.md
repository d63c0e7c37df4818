# chatink backend: a Dafny model of the users app

This project models the decision logic of the `users` Django app of the
chatink backend. Signed-in users save links. They build a *context*: the
concatenated visible text of some of their own links. They then ask a language
model about that context.

The model covers:

- the data model of `models.py`: users with a unique e-mail, links and contexts
  owned by a user, the many-to-many join table between contexts and links, and
  `on_delete=CASCADE`;
- the manager's `create_user` and `create_superuser`, and the `is_staff` and
  permission rules;
- the views of `views.py`, each as a pure function or method from the database
  and the request to the new database and the reply:
  - `delete_account`;
  - the user-creation step of the sign-on callback;
  - `user_links`, `delete_links` and `save_user_link`;
  - `create_context`, `chat` and `page_summary`;
- Python's `strip('"')` on e-mails, and the whitespace trimming and blank
  check that the framework's character fields apply to serializer input;
- the rate-limit classifier that both model-backed views apply to a model
  failure. It checks for the two marker phrases. It takes the leftmost match of
  `Please try again in (\d+)m(\d+\.\d+)s`, turns it into seconds, and falls
  back to 600 seconds.

Modules:

| module | file | contents |
|---|---|---|
| `Wrappers` | wrappers.dfy | `Option`, `Result` |
| `Text` | text.dfy | digits and decimal values, substring search, `str.strip` with a character set: `strip('"')` and whitespace trimming |
| `RateLimit` | ratelimit.dfy | the regular expression as a matcher with soundness and completeness lemmas, the retry-after, `Classify` |
| `Http` | http.dfy | statuses, JSON bodies, the `Throttled` exception, uncaught exceptions, redirects |
| `Models` | models.dfy | the store, `create_user`, `create_superuser`, the cascade |
| `UsersView` | users_view.dfy | `delete_account`, sign-on user creation |
| `LinksView` | links_view.dfy | `user_links`, `delete_links` (as written and corrected), `save_user_link` |
| `ContextView` | context_view.dfy | building the context text, `create_context`, `chat` (as written and corrected), `page_summary` |

Conventions of the model:

- The database is a `Store`: one map per table from primary key to row, the
  join table as a set of pairs, and the next primary key of each table. `Valid`
  is its integrity: unique e-mails, keys below the next key, and foreign keys
  that resolve.
- A queryset without `order_by` is taken to come back in ascending primary-key
  order.
- Three things are oracles passed in as parameters:
  - page fetching with text extraction (`Fetcher`);
  - the language model (`Model`);
  - a serializer's validity verdict (`accept`), for the rules the model does
    not spell out. Those it does spell out are applied before `accept` is
    asked: character fields trim surrounding whitespace (`Text.Trim`, which
    removes the characters Python's `str.isspace()` accepts) and refuse
    blank input, relation fields accept only existing keys, and the
    user e-mail is unique.
- An exception that escapes a view is the reply `Uncaught(name)`. The framework
  turns it into a 500 response.

Three behaviours of the code worth noting:

- The context text has one fragment per *resolved* link, not one per requested
  id. Ids of other users' links, unknown ids and repeated ids contribute
  nothing extra (`ContextView.ResolveLinks`, `ContextView.ResolveLinksSetwise`).
  The join rows are still written for every requested id.
- The cooldown pattern needs a decimal point in the seconds field, so `2m30s`
  is not a parsable duration and gives the 600-second default.
- Not every failure becomes a structured error reply. A missing e-mail, an
  unknown user and a missing `link_ids` in `create_context`, and a missing
  e-mail in `delete_account`, raise out of the view (`Uncaught`). So does `chat`'s throttling path, while
  it builds its exception (see Findings).

## Model

| member | source | states |
|---|---|---|
| Text.KeepFrom | context_links/users/views.py:110 | where `lstrip` stops: every character skipped is one of the characters, and the one it stops at is not |
| Text.KeepUntil | context_links/users/views.py:110 | where `rstrip` stops: every character dropped is one of the characters, and the one before the end is not |
| Text.Strip | context_links/users/views.py:110 | `strip(chars)`: the result neither starts nor ends with one of the characters |
| Text.StripSpec | context_links/users/views.py:110 | the result is `s` with a run of the characters removed from each end, and nothing in between |
| Text.StripOfPadded | context_links/users/views.py:150 | any core that neither starts nor ends with one of the characters, surrounded by any run of them, is stripped back to exactly that core |
| Text.StripUnpadded | context_links/users/views.py:187 | a string that neither starts nor ends with one of the characters is left as it is |
| Text.StripIdempotent | context_links/users/views.py:187 | stripping an already stripped e-mail changes nothing |
| Text.StripQuotes | context_links/users/views.py:110 | `strip('"')` on an e-mail: the result neither starts nor ends with a quote, is no longer than the input, and an e-mail without surrounding quotes is kept as it is (also lines 150, 187 and 218) |
| Text.StripQuotesExample | context_links/users/views.py:218 | a JSON-quoted e-mail loses its quotes |
| Text.TrimExample | context_links/users/views.py:197-198 | a URL field with a leading space and a trailing newline is trimmed to the URL |
| RateLimit.PatternAtSpelling | context_links/users/views.py:300 | the piecewise reading of the pattern is the pattern spelled as one string |
| RateLimit.MatchAtSound | context_links/users/views.py:300 | every anchored match is an instance of `Please try again in (\d+)m(\d+\.\d+)s` and yields its first two groups |
| RateLimit.MatchAtComplete | context_links/users/views.py:371 | every instance of the pattern at an index is found there, with the groups it spells |
| RateLimit.FirstMatch | context_links/users/views.py:300 | `re.search` finds the leftmost matching index and nothing before it matches; no index is found only if none matches |
| RateLimit.RetryAfter | context_links/users/views.py:300-305 | with the pattern matching first at index `i`, the wait (after the `int()` of line 311) is 60 times its minutes group plus the integer part of its seconds group; when the pattern matches nowhere it is 600 seconds |
| RateLimit.RetryAfterFirstPattern | context_links/users/views.py:300-303 | when the first instance of the pattern has groups `d1` and `d2.d3`, the wait (after the `int()` of line 311) is 60·d1 plus the integer part of `d2.d3` |
| RateLimit.RetryAfterNoPattern | context_links/users/views.py:304-305 | with no instance of the pattern the wait is 600 seconds |
| RateLimit.Classify | context_links/users/views.py:297-313 | a failure is throttling if and only if it contains both "Rate limit reached" and "tokens per minute (TPM)"; otherwise its raw message is kept |
| RateLimit.ClassifyParsedCooldown | context_links/users/views.py:369-374 | a throttling message saying `2m30.5s` waits 150 seconds |
| RateLimit.ClassifyUnparsedCooldown | context_links/users/views.py:375-376 | a throttling message saying `2m30s` (no fraction) falls back to 600 seconds |
| RateLimit.ClassifyUnrelated | context_links/users/views.py:386-390 | a failure without the markers is not throttling and keeps its message |
| Models.UserWithEmail | context_links/users/models.py:23 | lookup by e-mail finds the one user with that e-mail, and finds none exactly when no user has it |
| Models.SelectLinks | context_links/users/views.py:152 | a filtered queryset holds exactly the links satisfying the filter, in ascending key order |
| Models.CreateUser | context_links/users/models.py:5-14 | an empty e-mail fails; a duplicate of the normalised e-mail fails; otherwise exactly one new row with the normalised e-mail is added under a fresh key, no other table changes, and the database stays valid |
| Models.CreateSuperuser | context_links/users/models.py:16-20 | fails exactly when `create_user` fails, with the same error; otherwise it is `create_user`'s database with only that row's admin flag set, and the user is staff |
| Models.CreatedUserFlags | context_links/users/models.py:29-48 | a created user is active, not admin, not staff and holds every permission; a superuser differs only in being admin and staff |
| Models.DeleteUser | context_links/users/models.py:51-64 | deleting a user removes exactly its links, its contexts and their join rows, keeps every other row unchanged and keeps the database valid |
| Models.DeleteUserLeavesNoOrphans | context_links/users/models.py:53-64 | after the cascade no link or context refers to the deleted user |
| UsersView.DeleteAccount | context_links/users/views.py:107-121 | a missing e-mail raises; when no user has the stripped e-mail the reply is 404 and nothing changes; otherwise the user with that e-mail is deleted with its cascade and the reply is "User Deleted!" |
| UsersView.SsoLogin | context_links/users/views.py:73-98 | an e-mail found as given signs in without changes; otherwise the index page is reached exactly when the serializer accepts the trimmed row (no blank field, no user with the trimmed e-mail, `accept`), and then exactly that row is added under a fresh key; otherwise nothing changes and the login-error page is shown |
| UsersView.SsoLoginRepeated | context_links/users/views.py:78-86 | after a successful sign-in a second one with the same identity changes nothing, and succeeds again when the e-mail has no surrounding whitespace |
| UsersView.SsoLoginPaddedEmail | context_links/users/views.py:78-82 | when the sign-in created a user from an e-mail with surrounding whitespace, signing in again shows the login-error page |
| UsersView.SsoLoginTaken | context_links/users/views.py:78-86 | once a user has the trimmed e-mail, signing in changes nothing, and reaches the index page exactly when the e-mail as given is found |
| LinksView.UserLinks | context_links/users/views.py:146-156 | a missing e-mail or an unknown user gives a 500; otherwise 200 with exactly the user's links, in key order, as (id, link, name) |
| LinksView.RemoveLinks | context_links/users/views.py:167 | exactly the listed existing links go, whoever owns them, with their join rows; everything else stays; the database stays valid |
| LinksView.RemoveLinksCount | context_links/users/views.py:167 | the number of links removed is the number of listed ids that exist |
| LinksView.DeleteLinks | context_links/users/views.py:158-173 | a missing or empty id list gives 400; otherwise the links go, and the reply is 200 with the deleted-row count (links plus join rows), which is positive exactly when a listed link existed, or else 400 |
| LinksView.DeleteLinksOvercounts | context_links/users/views.py:167-171 | deleting the one link of a one-link store, used by one context, removes one link but reports 2 |
| LinksView.DeleteLinksIntended | context_links/users/views.py:167-171 | the corrected reply reports how many links the deletion removed |
| LinksView.DeleteLinksIntendedCountsLinks | context_links/users/views.py:170-171 | on the same store the corrected reply reports 1 |
| LinksView.SaveUserLink | context_links/users/views.py:176-203 | a missing or empty e-mail gives 400; an unknown user gives 400; otherwise the serializer's verdict on the row with trimmed name and URL (neither blank, and `accept`) decides between 201 with exactly that row added under a fresh key, owned by that user, and 400 with no change |
| LinksView.SaveUserLinkTrims | context_links/users/views.py:197-203 | a blank name or URL is refused whatever `accept` says, and a saved row has no surrounding whitespace in either field |
| ContextView.BuildText | context_links/users/views.py:225-240 | the loop's text is the concatenation, in order, of one fragment per link: with the page text when the fetch succeeded, without it when it failed |
| ContextView.ContextTextAt | context_links/users/views.py:225-240 | the text splits at every link into the text before it, exactly that link's fragment, and the text after it |
| ContextView.Fragment | context_links/users/views.py:238-240 | one link's fragment starts with `Link: <url>, `, and when the page was read its text follows `Parsed content: ` (the same fragments as lines 344-346) |
| ContextView.FragmentNamesLink | context_links/users/views.py:237-239 | every fragment starts with `Link: <url>, `, with or without parsed content |
| ContextView.ContextTextExample | context_links/users/views.py:225-240 | two links, the first fetched as `Hello` and the second failing, give the fragment with content then the bare fragment |
| ContextView.TrimContextText | context_links/users/views.py:242-251 | the serializer keeps all of a built text but its final space, and a text built from no links is blank |
| ContextView.ResolveLinks | context_links/users/views.py:221 | the links used are exactly the existing requested links that the caller owns, in key order |
| ContextView.ResolveLinksSetwise | context_links/users/views.py:221 | the order and repetition of requested ids do not matter |
| ContextView.CreateContext | context_links/users/views.py:214-256 | a missing e-mail, an unknown user and a missing id list each raise; otherwise the text covers only the caller's own links and is trimmed; when the serializer accepts (text not blank, every requested id an existing link, `accept`), the context is saved with that text under a fresh key with join rows for all requested ids and the reply is 201 with that key; otherwise 400 with no change |
| ContextView.PromptFor | context_links/users/views.py:280-289 | `invoke` is handed the text as the only variable, `text`, and neither template has a `{text}` placeholder to format it into (the same prompt as lines 352-361) |
| ContextView.Chat | context_links/users/views.py:260-323 | a missing or falsy id or utterance gives 400 and an unknown context gives 404, with no model call; otherwise `invoke` is handed the two empty templates and the stored text as the only variable; success gives 200, throttling fails with `TypeError` while building `Throttled`, and any other failure gives 500 with the message |
| ContextView.ChatIntended | context_links/users/views.py:307-314 | the corrected view makes the same model call, and raises `Throttled` with the throttle body and the parsed retry-after as its wait |
| ContextView.ChatDiffersOnlyWhenThrottled | context_links/users/views.py:307-314 | the view as written and the corrected view agree on every request, except that the corrected one raises `Throttled` exactly where the one as written fails with `TypeError` |
| ContextView.ChatThrottleRaisesTypeError | context_links/users/views.py:298-314 | a model failure asking for a wait of `2m30.5s` fails with `TypeError` where a throttle with a wait of 150 seconds was meant |
| ContextView.ChatIgnoresUserInput | context_links/users/views.py:265-289 | any two non-empty utterances give the same model call and the same reply |
| ContextView.PageSummary | context_links/users/views.py:326-394 | `invoke` is handed the two empty templates and the single fragment for the link as the only variable; success gives 200, throttling gives a 429 with the parsed wait, and any other failure gives 500 |
| ContextView.ThrottlingDiffersOnlyInCarrier | context_links/users/views.py:307-314 | for the same model failure the corrected `chat` and `page_summary` give the same throttle body; `chat` raises it and `page_summary` returns it as a 429, and they agree on every other outcome |

## Left out

- HTTP fetching, and HTML parsing with `BeautifulSoup(...).get_text`, are the `Fetcher` oracle. A fetch yields the page text or fails.
- The language model (`prompt | CHAT`, the Groq client) is the `Model` oracle. A `ModelCall` records what `invoke` is handed: the two templates and the variables.
- Prompt formatting is left out. Both templates are empty and have no `{text}` placeholder, so LangChain formats two empty messages and the stored text never reaches the language model. The oracle may depend on the `variables` of a `ModelCall`, which is more general than the source allows; `ContextView.PromptFor` states that neither template has the placeholder.
- Serializer validation beyond trimming, blank input, existing link ids and the unique e-mail is the `accept` oracle: e-mail and URL syntax, `max_length`, and the framework's `allow_empty` check on the context's link list (a text built from no links is already blank). `save_user_link`'s `data.pop('email')` and `data['user'] = pk` become the link row passed to the serializer.
- The OAuth code exchange, token verification, cookies, CSRF token and session of `UserInfo.get` are left out. `UsersView.SsoLogin` starts from the verified identity. An identity without an e-mail or names is left out.
- `get_google_sso`, `Index`, URL routing and logging are left out, because they make no decisions.
- Passwords and `set_password` are left out. E-mail normalisation is a parameter of `create_user`.
- `date_joined`, `last_login` and `created_on` are clock-driven and are not modelled.
- Only ASCII `0`-`9` count as digits in the cooldown pattern. Python's `\d` and `int()` also accept other Unicode decimal digits.
- RateLimit.RetryAfter: computes 60·minutes plus the integer part of the seconds field exactly. Python adds `int(minutes) * 60` to `float(seconds)` in floating point. So a seconds field with more digits than a double holds can round up across a whole second. A sum above 2^53 (a minutes field above about 1.5·10^14) is rounded to a double. A minutes field whose product exceeds the double range (about 1.8·10^308) makes the addition raise `OverflowError`. A seconds field too long for a double makes `float()` return infinity, and `int()` of the sum then raises `OverflowError`. A minutes field of more than 4300 digits makes `int()` raise `ValueError`, Python's limit on converting long digit strings. Each of these exceptions escapes the view as a 500.
- `delete_account`'s 500 reply needs the database to raise. The model's deletion cannot fail, so that path is not modelled.
- `save_user_link`'s bare `except` calls `logger.error(exc_info=True)` without the required message argument. The handler itself then raises `TypeError`, so the request still fails with a 500. That path is reached only through framework or database failures, which are not modelled.
- Request fields of the wrong JSON type are not modelled: a non-string e-mail, a non-list `link_ids`, or a string `context_id`. Ids are integers and lists are sequences.
- Concurrency and transactions are not modelled: two requests creating the same e-mail at once, and `transaction.atomic`. Each request runs alone against the store.

## Findings

| source | as written | input that shows it | evidently intended | confidence | as-written member | corrected member |
|---|---|---|---|---|---|---|
| context_links/users/views.py:167-171 | the reply reports `deleted_count`, the total that `QuerySet.delete()` returns; that total also counts the cascaded rows of the context–link join table | one user, one link with id 1, one context that includes it; `delete_links` with `link_ids = [1]` | "1 links deleted!", the number of links removed | medium: the framework's delete count includes cascaded rows; not executed | LinksView.DeleteLinksOvercounts | LinksView.DeleteLinksIntended |
| context_links/users/views.py:307-314 | `chat` raises `Throttled(detail={...}, wait=n)` with a JSON object as the detail; the framework's constructor, given a wait, joins the detail with a text sentence using `' '.join`, which accepts only strings, so it raises `TypeError` | a context with id 1; `chat` with `context_id = 1`, `user_input = "hi"`, and a model failing with "Rate limit reached on tokens per minute (TPM). Please try again in 2m30.5s" | a 429 carrying the throttle body, with a `Retry-After` of 150 seconds, as `page_summary` answers | medium: rests on the framework version's `Throttled` constructor; not executed | ContextView.ChatThrottleRaisesTypeError | ContextView.ChatIntended |

/** `UserLinksView`: listing a user's links, batch deletion by id, and saving
    a new link. */
module LinksView {
  import opened Wrappers
  import opened Text
  import opened Http
  import opened Models

  const ListError := "Error occurred in fetching links!"
  const NoIdsError := "No link IDs provided"
  const NothingDeletedError := "No links were deleted. Check the provided IDs."

  /** The row `values("id", "link", "name")` yields for a stored link. */
  function RowOf(st: Store, id: nat): LinkRow
    requires id in st.links
  {
    LinkRow(id, st.links[id].url, st.links[id].name)
  }

  /** The keys of a list of rows. */
  function RowIds(rows: seq<LinkRow>): (ids: seq<nat>)
    ensures |ids| == |rows|
    ensures forall i :: 0 <= i < |rows| ==> ids[i] == rows[i].id
  {
    seq(|rows|, i requires 0 <= i < |rows| => rows[i].id)
  }

  /** The rows `user_links` lists for the user `uid`: every link that user
      owns and no other, in key order, each as (id, link, name). */
  ghost predicate ListsLinksOf(st: Store, uid: nat, rows: seq<LinkRow>) {
    && StrictlyIncreasing(RowIds(rows))
    && (forall id :: id in RowIds(rows) <==> id in st.links && st.links[id].owner == uid)
    && (forall i :: 0 <= i < |rows| ==> rows[i].id in st.links && rows[i] == RowOf(st, rows[i].id))
  }

  /** The rows for a list of stored keys, in the same order. */
  function Rows(st: Store, ids: seq<nat>): (rows: seq<LinkRow>)
    requires forall id :: id in ids ==> id in st.links
    ensures RowIds(rows) == ids
    ensures forall i :: 0 <= i < |rows| ==> rows[i].id in st.links && rows[i] == RowOf(st, rows[i].id)
  {
    var rows := seq(|ids|, i requires 0 <= i < |ids| => RowOf(st, ids[i]));
    assert RowIds(rows) == ids;
    rows
  }

  /** The listing for one user. */
  function ListFor(st: Store, uid: nat): (rows: seq<LinkRow>)
    requires Valid(st)
    ensures ListsLinksOf(st, uid, rows)
  {
    Rows(st, SelectLinks(st, (id: nat, l: UserLink) => l.owner == uid))
  }

  /** `user_links`: the caller's links in key order. A missing e-mail or an
      unknown user is caught by the view's `try` and answered with a 500. */
  function UserLinks(st: Store, email: Option<string>): (r: Reply)
    requires Valid(st)
    ensures email.None? ==> r == Respond(Status500ServerError, ErrorBody(ListError))
    ensures email.Some? ==>
      match UserWithEmail(st, StripQuotes(email.value))
      case None => r == Respond(Status500ServerError, ErrorBody(ListError))
      case Some(uid) => r.Respond? && r.status == Status200Ok && r.body.LinkRows? && ListsLinksOf(st, uid, r.body.rows)
  {
    match email
    case None => Respond(Status500ServerError, ErrorBody(ListError))
    case Some(raw) =>
      match UserWithEmail(st, StripQuotes(raw))
      case None => Respond(Status500ServerError, ErrorBody(ListError))
      case Some(uid) => Respond(Status200Ok, LinkRows(ListFor(st, uid)))
  }

  /** The links a batch delete removes: every listed id that exists,
      whoever owns it. */
  function Doomed(st: Store, ids: seq<int>): set<nat> {
    set id | id in st.links && id in ids
  }

  /** The join rows that go with the removed links. */
  function DoomedJoins(st: Store, ids: seq<int>): set<ContextLink> {
    set p | p in st.contextLinks && p.link in Doomed(st, ids)
  }

  /** The database once the listed links are deleted. */
  function RemoveLinks(st: Store, ids: seq<int>): (r: Store)
    requires Valid(st)
    ensures Valid(r)
    ensures forall id :: id in r.links <==> id in st.links && id !in ids
    ensures forall id :: id in r.links ==> r.links[id] == st.links[id]
    ensures forall p :: p in r.contextLinks <==> p in st.contextLinks && p.link in r.links
    ensures r.users == st.users && r.contexts == st.contexts
  {
    st.(links := st.links - Doomed(st, ids), contextLinks := st.contextLinks - DoomedJoins(st, ids))
  }

  lemma CardinalitySplit<T>(a: set<T>, d: set<T>)
    requires d <= a
    ensures |a| == |a - d| + |d|
  {
    assert a == (a - d) + d;
    assert (a - d) * d == {};
  }

  /** Deleting removes exactly as many links as there are doomed ids. */
  lemma RemoveLinksCount(st: Store, ids: seq<int>)
    requires Valid(st)
    ensures |st.links| == |RemoveLinks(st, ids).links| + |Doomed(st, ids)|
  {
    var d := Doomed(st, ids);
    assert RemoveLinks(st, ids).links.Keys == st.links.Keys - d;
    CardinalitySplit(st.links.Keys, d);
  }

  /** `delete_links` as written: the count it reports is the total that
      `QuerySet.delete()` returns, which includes the cascaded join rows. */
  function DeleteLinks(st: Store, linkIds: Option<seq<int>>): (r: Outcome<Store>)
    requires Valid(st)
    ensures Valid(r.state)
    ensures linkIds.None? || linkIds.value == [] ==> r == Outcome(st, Respond(Status400BadRequest, ErrorBody(NoIdsError)))
    ensures linkIds.Some? && linkIds.value != [] ==> r.state == RemoveLinks(st, linkIds.value)
    ensures linkIds.Some? && linkIds.value != [] ==>
      var n := |Doomed(st, linkIds.value)| + |DoomedJoins(st, linkIds.value)|;
      && (n > 0 <==> exists id :: id in st.links && id in linkIds.value)
      && r.reply == (if n > 0 then Respond(Status200Ok, LinksDeleted(n)) else Respond(Status400BadRequest, ErrorBody(NothingDeletedError)))
  {
    match linkIds
    case None => Outcome(st, Respond(Status400BadRequest, ErrorBody(NoIdsError)))
    case Some(ids) =>
      if ids == [] then Outcome(st, Respond(Status400BadRequest, ErrorBody(NoIdsError)))
      else
        var deleted := |Doomed(st, ids)| + |DoomedJoins(st, ids)|;
        assert deleted > 0 <==> Doomed(st, ids) != {} by {
          if Doomed(st, ids) == {} {
            assert DoomedJoins(st, ids) == {};
          }
        }
        Outcome(RemoveLinks(st, ids),
          if deleted > 0 then Respond(Status200Ok, LinksDeleted(deleted))
          else Respond(Status400BadRequest, ErrorBody(NothingDeletedError)))
  }

  /** The count as intended: the number of links that were removed. */
  function DeleteLinksIntended(st: Store, linkIds: Option<seq<int>>): (r: Outcome<Store>)
    requires Valid(st)
    ensures Valid(r.state)
    ensures linkIds.None? || linkIds.value == [] ==> r == Outcome(st, Respond(Status400BadRequest, ErrorBody(NoIdsError)))
    ensures linkIds.Some? && linkIds.value != [] ==>
      && r.state == RemoveLinks(st, linkIds.value)
      && var removed := |st.links| - |r.state.links|;
      && (removed > 0 ==> r.reply == Respond(Status200Ok, LinksDeleted(removed)))
      && (removed == 0 ==> r.reply == Respond(Status400BadRequest, ErrorBody(NothingDeletedError)))
  {
    match linkIds
    case None => Outcome(st, Respond(Status400BadRequest, ErrorBody(NoIdsError)))
    case Some(ids) =>
      if ids == [] then Outcome(st, Respond(Status400BadRequest, ErrorBody(NoIdsError)))
      else
        var doomed := Doomed(st, ids);
        var after := RemoveLinks(st, ids);
        RemoveLinksCount(st, ids);
        Outcome(after,
          if |doomed| > 0 then Respond(Status200Ok, LinksDeleted(|doomed|))
          else Respond(Status400BadRequest, ErrorBody(NothingDeletedError)))
  }

  /** One user with one link, referenced by one context. */
  const OneLinkStore := Store(
    map[1 := User("ann@example.org", "Ann", "Lee", true, false)],
    map[1 := UserLink("docs", 1, "https://example.org")],
    map[1 := Context(1, "Link: https://example.org,")],
    {ContextLink(1, 1)}, 2, 2, 2)

  lemma OneLinkStoreValid()
    ensures Valid(OneLinkStore)
  {
  }

  lemma OneLinkStoreDoomed()
    ensures Doomed(OneLinkStore, [1]) == {1}
    ensures DoomedJoins(OneLinkStore, [1]) == {ContextLink(1, 1)}
  {
    assert Doomed(OneLinkStore, [1]) == {1};
  }

  /** Deleting that link removes one link (`RemoveLinksCount`), yet the
      reply as written reports two deletions: the join row is counted too. */
  lemma DeleteLinksOvercounts()
    ensures |Doomed(OneLinkStore, [1])| == 1
    ensures DeleteLinks(OneLinkStore, Some([1])).reply == Respond(Status200Ok, LinksDeleted(2))
  {
    OneLinkStoreValid();
    OneLinkStoreDoomed();
  }

  /** The intended count reports the one link removed. */
  lemma DeleteLinksIntendedCountsLinks()
    ensures DeleteLinksIntended(OneLinkStore, Some([1])).reply == Respond(Status200Ok, LinksDeleted(1))
  {
    OneLinkStoreValid();
    OneLinkStoreDoomed();
    assert |Doomed(OneLinkStore, [1])| == 1;
    assert DeleteLinksIntended(OneLinkStore, Some([1])).state == RemoveLinks(OneLinkStore, [1]);
    RemoveLinksCount(OneLinkStore, [1]);
    assert |OneLinkStore.links| == 1;
  }

  const SaveNoEmailError := "User email not found in the request payload!"
  const SaveNoUserError := "User not found in the database!"
  const SaveFailedError := "Failed to save user link!"

  datatype LinkRequest = LinkRequest(email: Option<string>, name: string, link: string)

  /** Saving a new link row under the next primary key. */
  function AddLink(st: Store, row: UserLink): (r: Store)
    requires Valid(st) && row.owner in st.users
    ensures Valid(r)
    ensures st.nextLinkId !in st.links && r.links == st.links[st.nextLinkId := row]
    ensures r.users == st.users && r.contexts == st.contexts && r.contextLinks == st.contextLinks
  {
    st.(links := st.links[st.nextLinkId := row], nextLinkId := st.nextLinkId + 1)
  }

  /** The row the serializer builds: its character fields trim surrounding
      whitespace from the name and the URL. */
  function RequestedRow(req: LinkRequest, owner: nat): UserLink {
    UserLink(Trim(req.name), owner, Trim(req.link))
  }

  /** The serializer's verdict: neither field is blank, and `accept`, the
      oracle for its remaining rules (URL syntax, lengths). */
  predicate LinkAccepted(row: UserLink, accept: UserLink -> bool) {
    row.name != [] && row.url != [] && accept(row)
  }

  /** `save_user_link`: the e-mail names the owner; the trimmed row is saved
      under the next key when the serializer validates it. */
  function SaveUserLink(st: Store, req: LinkRequest, accept: UserLink -> bool): (r: Outcome<Store>)
    requires Valid(st)
    ensures Valid(r.state)
    ensures req.email.None? || req.email.value == [] ==>
      r == Outcome(st, Respond(Status400BadRequest, ErrorBody(SaveNoEmailError)))
    ensures req.email.Some? && req.email.value != [] ==>
      match UserWithEmail(st, StripQuotes(req.email.value))
      case None => r == Outcome(st, Respond(Status400BadRequest, ErrorBody(SaveNoUserError)))
      case Some(uid) =>
        var row := RequestedRow(req, uid);
        && (!LinkAccepted(row, accept) ==> r == Outcome(st, Respond(Status400BadRequest, ErrorBody(SaveFailedError))))
        && (LinkAccepted(row, accept) ==>
              && r.reply == Respond(Status201Created, SuccessBody("Saved user link!"))
              && r.state.users == st.users && r.state.contexts == st.contexts && r.state.contextLinks == st.contextLinks
              && exists id: nat :: id !in st.links && r.state.links == st.links[id := row])
  {
    if req.email.None? || req.email.value == [] then
      Outcome(st, Respond(Status400BadRequest, ErrorBody(SaveNoEmailError)))
    else
      match UserWithEmail(st, StripQuotes(req.email.value))
      case None => Outcome(st, Respond(Status400BadRequest, ErrorBody(SaveNoUserError)))
      case Some(uid) =>
        var row := RequestedRow(req, uid);
        if LinkAccepted(row, accept) then Outcome(AddLink(st, row), Respond(Status201Created, SuccessBody("Saved user link!")))
        else Outcome(st, Respond(Status400BadRequest, ErrorBody(SaveFailedError)))
  }

  /** A name or URL of nothing but whitespace is refused whatever `accept`
      says, and surrounding whitespace never reaches the stored row. */
  lemma SaveUserLinkTrims(st: Store, req: LinkRequest, accept: UserLink -> bool)
    requires Valid(st) && req.email.Some? && req.email.value != []
    requires UserWithEmail(st, StripQuotes(req.email.value)).Some?
    ensures Blank(req.name) || Blank(req.link) ==>
      SaveUserLink(st, req, accept) == Outcome(st, Respond(Status400BadRequest, ErrorBody(SaveFailedError)))
    ensures forall id :: id in SaveUserLink(st, req, accept).state.links && id !in st.links ==>
      Unpadded(SaveUserLink(st, req, accept).state.links[id].name, Whitespace)
      && Unpadded(SaveUserLink(st, req, accept).state.links[id].url, Whitespace)
  {
  }
}

/** controllers/writingController.js: liking and unliking (a set of likers
    plus a counter), commenting, creating a poem with its defaults, toggling
    the featured flag, and the filter the list endpoint builds. The handlers
    are step functions over the writings collection; the methods at the end
    perform them on a WritingCollection. */
module WritingController {
  import opened Common
  import opened UserModel
  import opened ContentModel
  import opened AuthMiddleware

  type Writings = map<WritingId, Writing>

  datatype WritingReply =
    | WritingNotFound                        // 404 Writing not found
    | LikeCount(likes: int)                  // { likes }
    | ContentRequired                        // 400 Content required
    | CommentAdded(comment: Comment)         // 201, the saved comment
    | FeaturedNow(featured: bool)            // the new flag
    | TitleBodyRequired                      // 400 Title and body are required
    | WritingCreated(id: WritingId, writing: Writing)  // 201
    | WritingUnhandled                       // Writing.create rejected: no catch, no reply is sent

  datatype WritingOutcome = WritingOutcome(writings: Writings, reply: WritingReply)

  // ----- like and unlike -----

  /** like on the fetched document: push the caller and recount, unless the
      caller is already among the likers. */
  function WithLike(w: Writing, uid: UserId): (r: Writing)
    ensures forall x :: x in r.likedBy <==> x in w.likedBy || x == uid
    ensures uid in w.likedBy ==> r == w
    ensures uid !in w.likedBy ==> r.likes == |r.likedBy| == |w.likedBy| + 1
    ensures r == w.(likedBy := r.likedBy, likes := r.likes)
  {
    if uid in w.likedBy then w
    else
      var liked := w.likedBy + [uid];
      w.(likedBy := liked, likes := |liked|)
  }

  /** unlike on the fetched document: drop every occurrence of the caller,
      and recount only if the list shrank. */
  function WithoutLike(w: Writing, uid: UserId): (r: Writing)
    ensures forall x :: x in r.likedBy <==> x in w.likedBy && x != uid
    ensures uid !in w.likedBy ==> r == w
    ensures uid in w.likedBy ==> r.likes == |r.likedBy| < |w.likedBy|
    ensures r == w.(likedBy := r.likedBy, likes := r.likes)
  {
    var kept := RemoveAll(w.likedBy, uid);
    if |kept| != |w.likedBy| then w.(likedBy := kept, likes := |kept|) else w.(likedBy := kept)
  }

  /** A like keeps the counter consistent, adds one exactly when the caller
      had not liked before, and liking again changes nothing. */
  lemma LikeKeepsCounter(w: Writing, uid: UserId)
    requires CounterConsistent(w)
    ensures CounterConsistent(WithLike(w, uid))
    ensures WithLike(w, uid).likes == if uid in w.likedBy then w.likes else w.likes + 1
    ensures WithLike(WithLike(w, uid), uid) == WithLike(w, uid)
  {
    if uid !in w.likedBy {
      var s := w.likedBy + [uid];
      forall i, j | 0 <= i < j < |s| ensures s[i] != s[j] {
        if j == |s| - 1 {
          assert s[i] == w.likedBy[i];
        } else {
          assert s[i] == w.likedBy[i] && s[j] == w.likedBy[j];
        }
      }
    }
  }

  /** An unlike keeps the counter consistent, takes one off exactly when
      the caller had liked, and unliking again changes nothing. */
  lemma UnlikeKeepsCounter(w: Writing, uid: UserId)
    requires CounterConsistent(w)
    ensures CounterConsistent(WithoutLike(w, uid))
    ensures WithoutLike(w, uid).likes == if uid in w.likedBy then w.likes - 1 else w.likes
    ensures WithoutLike(WithoutLike(w, uid), uid) == WithoutLike(w, uid)
  {
    RemoveAllKeepsNoDuplicates(w.likedBy, uid);
    CountAtMostOne(w.likedBy, uid);
  }

  /** Unliking right after a first like restores the writing exactly. */
  lemma UnlikeUndoesLike(w: Writing, uid: UserId)
    requires uid !in w.likedBy && w.likes == |w.likedBy|
    ensures WithoutLike(WithLike(w, uid), uid) == w
  {
    RemoveAllAppended(w.likedBy, uid);
  }

  function LikeStep(ws: Writings, id: WritingId, caller: UserId): WritingOutcome {
    if id !in ws then WritingOutcome(ws, WritingNotFound)
    else
      var w := WithLike(ws[id], caller);
      WritingOutcome(ws[id := w], LikeCount(w.likes))
  }

  function UnlikeStep(ws: Writings, id: WritingId, caller: UserId): WritingOutcome {
    if id !in ws then WritingOutcome(ws, WritingNotFound)
    else
      var w := WithoutLike(ws[id], caller);
      WritingOutcome(ws[id := w], LikeCount(w.likes))
  }

  /** Like and unlike on the collection: 404 for an unknown writing, with
      nothing changed; otherwise only that writing's likers and counter
      move, the reply is its new count, and a repeated request changes
      nothing more. */
  lemma LikeUnlikeEffect(ws: Writings, id: WritingId, caller: UserId)
    ensures id !in ws ==> LikeStep(ws, id, caller) == UnlikeStep(ws, id, caller) == WritingOutcome(ws, WritingNotFound)
    ensures id in ws ==>
      && LikeStep(ws, id, caller).writings.Keys == ws.Keys
      && (forall j :: j in ws && j != id ==> LikeStep(ws, id, caller).writings[j] == ws[j])
      && caller in LikeStep(ws, id, caller).writings[id].likedBy
      && LikeStep(ws, id, caller).reply == LikeCount(LikeStep(ws, id, caller).writings[id].likes)
      && LikeStep(LikeStep(ws, id, caller).writings, id, caller).writings == LikeStep(ws, id, caller).writings
    ensures id in ws ==>
      && UnlikeStep(ws, id, caller).writings.Keys == ws.Keys
      && (forall j :: j in ws && j != id ==> UnlikeStep(ws, id, caller).writings[j] == ws[j])
      && caller !in UnlikeStep(ws, id, caller).writings[id].likedBy
      && UnlikeStep(ws, id, caller).reply == LikeCount(UnlikeStep(ws, id, caller).writings[id].likes)
  {
    if id in ws {
      var after := LikeStep(ws, id, caller).writings;
      assert after[id] == WithLike(ws[id], caller);
      assert WithLike(after[id], caller) == after[id];
      assert after[id := after[id]] == after;
    }
  }

  // ----- comments -----

  /** `req.user.handle || 'User'`. */
  function CommenterName(caller: Claims): (name: string)
    ensures name != ""
    ensures Present(caller.handle) ==> name == caller.handle.value
    ensures !Present(caller.handle) ==> name == "User"
  {
    if Present(caller.handle) then caller.handle.value else "User"
  }

  function AddCommentStep(ws: Writings, id: WritingId, caller: Claims, content: Option<string>): WritingOutcome {
    if !Present(content) || Trim(content.value) == "" then WritingOutcome(ws, ContentRequired)
    else if id !in ws then WritingOutcome(ws, WritingNotFound)
    else
      var c := Comment(caller.id, CommenterName(caller), Trim(content.value));
      WritingOutcome(ws[id := ws[id].(comments := ws[id].comments + [c])], CommentAdded(c))
  }

  /** Blank content is 400 whether or not the writing exists; then an
      unknown writing is 404; both change nothing, and otherwise a comment
      is added. */
  lemma AddCommentRouting(ws: Writings, id: WritingId, caller: Claims, content: Option<string>)
    ensures var o := AddCommentStep(ws, id, caller, content);
      && (o.reply == ContentRequired <==> content.None? || AllSpace(content.value))
      && (o.reply == WritingNotFound <==> content.Some? && !AllSpace(content.value) && id !in ws)
      && (!o.reply.CommentAdded? ==> o.writings == ws)
      && (o.reply.CommentAdded? <==> content.Some? && !AllSpace(content.value) && id in ws)
  {
  }

  /** An added comment is one the Comment schema accepts, by the caller,
      with the trimmed content; it is appended after that writing's
      existing comments, and nothing else changes. */
  lemma AddCommentAppends(ws: Writings, id: WritingId, caller: Claims, content: Option<string>)
    requires AddCommentStep(ws, id, caller, content).reply.CommentAdded?
    ensures var o := AddCommentStep(ws, id, caller, content);
      var c := o.reply.comment;
      && CommentValid(c) && c.userId == caller.id && c.content == Trim(content.value)
      && o.writings.Keys == ws.Keys
      && (forall j :: j in ws && j != id ==> o.writings[j] == ws[j])
      && |o.writings[id].comments| == |ws[id].comments| + 1
      && o.writings[id].comments[..|ws[id].comments|] == ws[id].comments
      && o.writings[id].comments[|ws[id].comments|] == c
      && o.writings[id] == ws[id].(comments := o.writings[id].comments)
  {
    var o := AddCommentStep(ws, id, caller, content);
    var cs := ws[id].comments + [o.reply.comment];
    assert cs[..|ws[id].comments|] == ws[id].comments;
  }

  /** A comment posted with a session this server signed is signed "User":
      the token carries no handle. */
  lemma ServerSessionsCommentAsUser(ws: Writings, id: WritingId, uid: UserId, role: Role,
                                    jwtExpires: Option<string>, content: Option<string>)
    requires id in ws && content.Some? && !AllSpace(content.value)
    ensures AddCommentStep(ws, id, SignToken(uid, role, jwtExpires).payload, content).reply
              == CommentAdded(Comment(uid, "User", Trim(content.value)))
  {
  }

  // ----- toggleFeatured -----

  function ToggleFeaturedStep(ws: Writings, id: WritingId): WritingOutcome {
    if id !in ws then WritingOutcome(ws, WritingNotFound)
    else
      var w := ws[id].(featured := !ws[id].featured);
      WritingOutcome(ws[id := w], FeaturedNow(w.featured))
  }

  /** Toggling negates the flag of that writing only, and toggling twice
      gives the collection back. */
  lemma ToggleFeaturedTwice(ws: Writings, id: WritingId)
    ensures var o := ToggleFeaturedStep(ws, id);
      && (id !in ws ==> o == WritingOutcome(ws, WritingNotFound))
      && (id in ws ==> o.reply == FeaturedNow(!ws[id].featured) && o.writings[id].featured == !ws[id].featured
                       && o.writings[id] == ws[id].(featured := o.writings[id].featured))
      && ToggleFeaturedStep(o.writings, id).writings == ws
  {
    if id in ws {
      var once := ToggleFeaturedStep(ws, id).writings;
      assert once[id].(featured := !once[id].featured) == ws[id];
    }
  }

  // ----- create -----

  datatype WritingForm = WritingForm(title: Option<string>, body: Option<string>, language: Option<string>,
                                     categories: Option<seq<string>>, poetId: Option<PoetId>, visibility: Option<string>)

  /** The Writing.create call: language `|| 'hi'`, categories `|| []`,
      visibility `|| 'public'`, the author is the caller. */
  function WritingDoc(form: WritingForm, caller: UserId): NewWriting
    requires Present(form.title) && Present(form.body)
  {
    NewWriting(form.poetId, caller, form.title.value, form.body.value,
               if Present(form.language) then form.language.value else "hi",
               form.categories.GetOr([]),
               if Present(form.visibility) then form.visibility.value else "public")
  }

  function CreateWritingStep(ws: Writings, form: WritingForm, caller: UserId, newId: WritingId): WritingOutcome {
    if !Present(form.title) || !Present(form.body) then WritingOutcome(ws, TitleBodyRequired)
    else
      match InstantiateWriting(WritingDoc(form, caller))
      case None => WritingOutcome(ws, WritingUnhandled)
      case Some(w) => WritingOutcome(ws[newId := w], WritingCreated(newId, w))
  }

  /** 400 exactly when title or body is missing. Otherwise the poem is
      stored under the fresh id exactly when its trimmed title is not blank
      and any language and visibility given are within their enums; it then
      defaults to Hindi, public and no categories, is written by the caller,
      has no likes (its counter consistent), no comments and is not
      featured. */
  lemma CreateWritingDefaults(ws: Writings, form: WritingForm, caller: UserId, newId: WritingId)
    ensures var o := CreateWritingStep(ws, form, caller, newId);
      && (o.reply == TitleBodyRequired <==> !Present(form.title) || !Present(form.body))
      && (o.reply.WritingCreated? <==>
            && Present(form.title) && Present(form.body) && Trim(form.title.value) != ""
            && (!Present(form.language) || ParseLanguage(form.language.value).Some?)
            && (!Present(form.visibility) || ParseVisibility(form.visibility.value).Some?))
      && (!o.reply.WritingCreated? ==> o.writings == ws)
      && (o.reply.WritingCreated? ==>
            var w := o.reply.writing;
            && o.reply.id == newId && o.writings == ws[newId := w]
            && w.authorId == Some(caller) && w.poetId == form.poetId
            && w.title == Trim(form.title.value) && w.body == form.body.value
            && (!Present(form.language) ==> w.language == Hindi)
            && (Present(form.language) ==> LanguageName(w.language) == form.language.value)
            && (!Present(form.visibility) ==> w.visibility == Public)
            && (Present(form.visibility) ==> VisibilityName(w.visibility) == form.visibility.value)
            && (form.categories.None? ==> w.categories == [])
            && (form.categories.Some? ==> w.categories == TrimAll(form.categories.value))
            && w.likedBy == [] && w.likes == 0 && CounterConsistent(w) && !w.featured && w.comments == [])
  {
  }

  // ----- the list filter -----

  /** The query string of GET /api/writings. */
  datatype ListParams = ListParams(q: Option<string>, poetId: Option<string>, categories: Option<string>,
                                   language: Option<string>, featured: Option<string>, sortBy: Option<string>)

  /** The filter handed to Writing.find; `text` is the pattern matched,
      case-insensitively, against title or body. */
  datatype WritingFilter = WritingFilter(visibility: Visibility, poetId: Option<string>, language: Option<string>,
                                         featured: Option<bool>, text: Option<string>, categoriesIn: Option<seq<string>>)

  datatype WritingOrder = MostLikedFirst | NewestFirst

  function WritingListFilter(params: ListParams): (f: WritingFilter)
    ensures f.visibility == Public
    ensures f.language.Some? <==> Present(params.language) && params.language.value != "all"
    ensures f.language.Some? ==> f.language == params.language
    ensures f.featured.Some? <==> params.featured.Some?
    ensures f.featured.Some? ==> (f.featured.value <==> params.featured.value == "true")
    ensures f.categoriesIn.Some? <==> Present(params.categories) && ParseCommaList(params.categories.value) != []
    ensures f.categoriesIn.Some? ==> f.categoriesIn.value == ParseCommaList(params.categories.value)
    ensures f.categoriesIn.Some? ==> var cs := f.categoriesIn.value;
      |cs| >= 1 && forall k :: 0 <= k < |cs| ==> cs[k] != "" && IsTrimmed(cs[k]) && ',' !in cs[k]
    ensures f.poetId.Some? <==> Present(params.poetId)
    ensures f.poetId.Some? ==> f.poetId == params.poetId
    ensures f.text.Some? <==> Present(params.q)
    ensures f.text.Some? ==> f.text == params.q
  {
    var categories := if Present(params.categories) then ParseCommaList(params.categories.value) else [];
    WritingFilter(
      Public,
      if Present(params.poetId) then params.poetId else None,
      if Present(params.language) && params.language.value != "all" then params.language else None,
      if params.featured.Some? then Some(params.featured.value == "true") else None,
      if Present(params.q) then params.q else None,
      if |categories| > 0 then Some(categories) else None)
  }

  function WritingListOrder(params: ListParams): WritingOrder {
    if params.sortBy == Some("mostLiked") then MostLikedFirst else NewestFirst
  }

  /** Categories written as a comma-separated list of clean names come
      back as exactly those names. */
  lemma CategoriesRoundTrip(params: ListParams, items: seq<string>)
    requires |items| >= 1
    requires forall k :: 0 <= k < |items| ==> items[k] != "" && IsTrimmed(items[k]) && ',' !in items[k]
    ensures WritingListFilter(params.(categories := Some(Join(items, ',')))).categoriesIn == Some(items)
  {
    ParseJoinedList(items);
  }

  /** A categories list of blanks and commas parses to nothing. */
  lemma BlankCategoryListParsesEmpty()
    ensures ParseCommaList(" , ,") == []
  {
    var blank := " , ,";
    assert Split(blank, ',') == [" ", " ", ""] by {
      assert blank == " " + [','] + " ,";
      assert " ," == " " + [','] + "";
      SplitNoSep("", ',');
      SplitAtSep(" ", "", ',');
      SplitAtSep(" ", " ,", ',');
    }
    assert Trim(" ") == "" by {
      assert AllSpace(" ");
    }
    assert TrimAll(Split(blank, ',')) == ["", "", ""];
    assert DropEmpty(["", "", ""]) == [];
  }

  /** A categories parameter of nothing but commas and spaces adds no
      category filter. */
  lemma BlankCategoriesIgnored(params: ListParams)
    ensures WritingListFilter(params.(categories := Some(" , ,"))).categoriesIn.None?
  {
    BlankCategoryListParsesEmpty();
  }

  // ----- the handlers, performed on the writings collection -----

  /** POST /api/writings/:id/like */
  method Like(writings: WritingCollection, id: WritingId, caller: UserId) returns (reply: WritingReply)
    requires writings.Valid()
    modifies writings
    ensures writings.Valid() && writings.nextId == old(writings.nextId)
    ensures WritingOutcome(writings.docs, reply) == LikeStep(old(writings.docs), id, caller)
  {
    if id !in writings.docs {
      return WritingNotFound;
    }
    var w := writings.docs[id];
    if caller !in w.likedBy {
      LikeKeepsCounter(w, caller);
      w := w.(likedBy := w.likedBy + [caller]);
      w := w.(likes := |w.likedBy|);
      writings.Save(id, w);
    }
    return LikeCount(w.likes);
  }

  /** POST /api/writings/:id/unlike */
  method Unlike(writings: WritingCollection, id: WritingId, caller: UserId) returns (reply: WritingReply)
    requires writings.Valid()
    modifies writings
    ensures writings.Valid() && writings.nextId == old(writings.nextId)
    ensures WritingOutcome(writings.docs, reply) == UnlikeStep(old(writings.docs), id, caller)
  {
    if id !in writings.docs {
      return WritingNotFound;
    }
    var w := writings.docs[id];
    UnlikeKeepsCounter(w, caller);
    var before := |w.likedBy|;
    w := w.(likedBy := RemoveAll(w.likedBy, caller));
    if |w.likedBy| != before {
      w := w.(likes := |w.likedBy|);
      writings.Save(id, w);
    }
    return LikeCount(w.likes);
  }

  /** POST /api/writings/:id/comments */
  method AddComment(writings: WritingCollection, id: WritingId, caller: Claims, content: Option<string>)
    returns (reply: WritingReply)
    requires writings.Valid()
    modifies writings
    ensures writings.Valid() && writings.nextId == old(writings.nextId)
    ensures WritingOutcome(writings.docs, reply) == AddCommentStep(old(writings.docs), id, caller, content)
  {
    if !Present(content) || Trim(content.value) == "" {
      return ContentRequired;
    }
    if id !in writings.docs {
      return WritingNotFound;
    }
    var w := writings.docs[id];
    var c := Comment(caller.id, CommenterName(caller), Trim(content.value));
    w := w.(comments := w.comments + [c]);
    writings.Save(id, w);
    return CommentAdded(w.comments[|w.comments| - 1]);
  }

  /** POST /api/writings/:id/toggle-featured, admin only. */
  method ToggleFeatured(writings: WritingCollection, id: WritingId) returns (reply: WritingReply)
    requires writings.Valid()
    modifies writings
    ensures writings.Valid() && writings.nextId == old(writings.nextId)
    ensures WritingOutcome(writings.docs, reply) == ToggleFeaturedStep(old(writings.docs), id)
  {
    if id !in writings.docs {
      return WritingNotFound;
    }
    var w := writings.docs[id];
    w := w.(featured := !w.featured);
    writings.Save(id, w);
    return FeaturedNow(w.featured);
  }

  /** POST /api/writings */
  method CreateWriting(writings: WritingCollection, form: WritingForm, caller: UserId) returns (reply: WritingReply)
    requires writings.Valid()
    modifies writings
    ensures writings.Valid()
    ensures WritingOutcome(writings.docs, reply) == CreateWritingStep(old(writings.docs), form, caller, old(writings.nextId))
    ensures writings.nextId == if reply.WritingCreated? then old(writings.nextId) + 1 else old(writings.nextId)
  {
    if !Present(form.title) || !Present(form.body) {
      return TitleBodyRequired;
    }
    var doc := InstantiateWriting(WritingDoc(form, caller));
    if doc.None? {
      return WritingUnhandled;
    }
    var id := writings.Insert(doc.value);
    return WritingCreated(id, doc.value);
  }
}

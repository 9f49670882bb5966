/** The Writing (with its Comment sub-documents) and Poet records of
    models/Writing.js and models/Poet.js: enums, setters, defaults and the
    required checks that create runs, the Poet's JSON transform, and the two
    collections the controllers update. */
module ContentModel {
  import opened Common
  import opened UserModel

  // ----- enums -----

  datatype Language = Hindi | English

  function LanguageName(l: Language): string {
    match l
    case Hindi => "hi"
    case English => "en"
  }

  /** The enum check on a language: only "hi" and "en" pass. */
  function ParseLanguage(s: string): (r: Option<Language>)
    ensures r.Some? ==> LanguageName(r.value) == s
    ensures r.None? ==> forall l: Language :: LanguageName(l) != s
  {
    if s == "hi" then Some(Hindi)
    else if s == "en" then Some(English)
    else None
  }

  lemma ParseLanguageName(l: Language)
    ensures ParseLanguage(LanguageName(l)) == Some(l)
  {
  }

  /** The enum check on every element of a languages array. */
  function ParseLanguages(xs: seq<string>): (r: Option<seq<Language>>)
    ensures r.Some? <==> forall k :: 0 <= k < |xs| ==> ParseLanguage(xs[k]).Some?
    ensures r.Some? ==> |r.value| == |xs| && forall k :: 0 <= k < |xs| ==> LanguageName(r.value[k]) == xs[k]
  {
    if xs == [] then Some([])
    else
      var head := ParseLanguage(xs[0]);
      var tail := ParseLanguages(xs[1..]);
      assert forall k :: 1 <= k < |xs| ==> xs[k] == xs[1..][k - 1];
      if head.Some? && tail.Some? then Some([head.value] + tail.value)
      else
        assert tail.None? ==> exists k :: 1 <= k < |xs| && ParseLanguage(xs[k]).None?;
        None
  }

  datatype Visibility = Public | FollowersOnly | Private

  function VisibilityName(v: Visibility): string {
    match v
    case Public => "public"
    case FollowersOnly => "followers"
    case Private => "private"
  }

  /** The enum check on a visibility: only "public", "followers" and "private" pass. */
  function ParseVisibility(s: string): (r: Option<Visibility>)
    ensures r.Some? ==> VisibilityName(r.value) == s
    ensures r.None? ==> forall v: Visibility :: VisibilityName(v) != s
  {
    if s == "public" then Some(Public)
    else if s == "followers" then Some(FollowersOnly)
    else if s == "private" then Some(Private)
    else None
  }

  lemma ParseVisibilityName(v: Visibility)
    ensures ParseVisibility(VisibilityName(v)) == Some(v)
  {
  }

  // ----- Writing and Comment -----

  datatype Comment = Comment(userId: UserId, userName: string, content: string)

  /** What the Comment schema accepts: a user name, and content that is
      non-empty once trimmed (the trim setter has already run). */
  predicate CommentValid(c: Comment) {
    c.userName != "" && c.content != "" && IsTrimmed(c.content)
  }

  datatype Writing = Writing(
    poetId: Option<PoetId>,     // set for the poems of a catalogued poet
    authorId: Option<UserId>,   // set for user-generated poems
    title: string,
    body: string,
    language: Language,
    categories: seq<string>,
    visibility: Visibility,
    likedBy: seq<UserId>,
    likes: int,
    featured: bool,
    comments: seq<Comment>)

  /** The like counter agrees with the list of likers, which repeats nobody. */
  predicate CounterConsistent(w: Writing) {
    w.likes == |w.likedBy| && NoDuplicates(w.likedBy)
  }

  /** The fields a Writing.create call supplies. */
  datatype NewWriting = NewWriting(poetId: Option<PoetId>, authorId: UserId, title: string, body: string,
                                   language: string, categories: seq<string>, visibility: string)

  /** Writing.create's document, or None when validation fails: title
      trimmed and required, body required, language and visibility within
      their enums, categories trimmed one by one; no likes, not featured,
      no comments. */
  function InstantiateWriting(f: NewWriting): (r: Option<Writing>)
    ensures r.Some? <==> Trim(f.title) != "" && f.body != "" && ParseLanguage(f.language).Some? && ParseVisibility(f.visibility).Some?
    ensures r.Some? ==> var w := r.value;
      && w.poetId == f.poetId && w.authorId == Some(f.authorId)
      && w.title == Trim(f.title) && w.body == f.body
      && LanguageName(w.language) == f.language && VisibilityName(w.visibility) == f.visibility
      && w.categories == TrimAll(f.categories)
      && w.likedBy == [] && w.likes == 0 && !w.featured && w.comments == []
      && CounterConsistent(w)
  {
    var language := ParseLanguage(f.language);
    var visibility := ParseVisibility(f.visibility);
    if Trim(f.title) == "" || f.body == "" || language.None? || visibility.None? then None
    else Some(Writing(f.poetId, Some(f.authorId), Trim(f.title), f.body, language.value,
                      TrimAll(f.categories), visibility.value, [], 0, false, []))
  }

  // ----- Poet -----

  datatype Poet = Poet(
    name: string,
    aka: Option<string>,
    era: Option<string>,
    avatarUrl: Option<string>,
    bioShort: Option<string>,
    bio: Option<string>,
    languages: seq<Language>,
    featured: bool,
    followersCount: int)

  /** The trim setter on an optional string field. */
  function TrimField(s: Option<string>): (r: Option<string>)
    ensures r.Some? <==> s.Some?
    ensures r.Some? ==> r.value == Trim(s.value)
  {
    if s.Some? then Some(Trim(s.value)) else None
  }

  /** The fields a Poet.create call supplies. */
  datatype NewPoet = NewPoet(name: Option<string>, aka: Option<string>, era: Option<string>, avatarUrl: Option<string>,
                             bioShort: Option<string>, bio: Option<string>, languages: seq<string>, featured: bool)

  /** Poet.create's document, or None when validation fails: name required
      once trimmed, every language within the enum; aka and era trimmed;
      no followers. */
  function InstantiatePoet(f: NewPoet): (r: Option<Poet>)
    ensures r.Some? <==> f.name.Some? && Trim(f.name.value) != "" && ParseLanguages(f.languages).Some?
    ensures r.Some? ==> var poet := r.value;
      && poet.name == Trim(f.name.value) && poet.aka == TrimField(f.aka) && poet.era == TrimField(f.era)
      && poet.avatarUrl == f.avatarUrl && poet.bioShort == f.bioShort && poet.bio == f.bio
      && |poet.languages| == |f.languages|
      && (forall k :: 0 <= k < |f.languages| ==> LanguageName(poet.languages[k]) == f.languages[k])
      && poet.featured == f.featured && poet.followersCount == 0
  {
    var languages := ParseLanguages(f.languages);
    if f.name.None? || Trim(f.name.value) == "" || languages.None? then None
    else Some(Poet(Trim(f.name.value), TrimField(f.aka), TrimField(f.era), f.avatarUrl, f.bioShort, f.bio,
                   languages.value, f.featured, 0))
  }

  /** The toJSON transform: `id` takes the value of `_id`, `_id` is dropped,
      and every other key is kept as it is. (With no `_id`, `id` is
      undefined and so absent from the output.) */
  function PoetToJson(ret: map<string, Json>): (r: map<string, Json>)
    ensures "_id" !in r
    ensures "id" in r <==> "_id" in ret
    ensures "_id" in ret ==> r["id"] == ret["_id"]
    ensures forall k :: k != "id" && k != "_id" ==> (k in r <==> k in ret)
    ensures forall k :: k in r && k != "id" ==> k in ret && r[k] == ret[k]
  {
    var rest := map k | k in ret && k != "_id" && k != "id" :: ret[k];
    if "_id" in ret then rest["id" := ret["_id"]] else rest
  }

  /** Renaming `id` back to `_id`. */
  function JsonToPoet(r: map<string, Json>): map<string, Json> {
    var rest := map k | k in r && k != "id" :: r[k];
    if "id" in r then rest["_id" := r["id"]] else rest
  }

  /** The transform loses nothing from a stored document's own fields,
      which hold an `_id` and no `id`: renaming `id` back gives them back.
      This is about the stored fields only; the input the transform sees
      under `virtuals: true` also holds the `id` virtual, covered below. */
  lemma PoetJsonRoundTrip(ret: map<string, Json>)
    requires "_id" in ret && "id" !in ret
    ensures JsonToPoet(PoetToJson(ret)) == ret
  {
    var back := JsonToPoet(PoetToJson(ret));
    assert forall k :: k in back <==> k in ret;
    assert forall k :: k in back ==> back[k] == ret[k];
  }

  /** With the `id` virtual in the input, as `virtuals: true` puts it
      there, the transform overwrites it with `_id`; renaming back gives
      every other field back and only the virtual is lost. */
  lemma PoetJsonRoundTripWithVirtual(ret: map<string, Json>)
    requires "_id" in ret
    ensures JsonToPoet(PoetToJson(ret)) == map k | k in ret && k != "id" :: ret[k]
  {
    var back := JsonToPoet(PoetToJson(ret));
    var own := map k | k in ret && k != "id" :: ret[k];
    assert forall k :: k in back <==> k in own;
    assert forall k :: k in back ==> back[k] == own[k];
  }

  // ----- the collections -----

  /** The writings collection: documents, and the id the next insert gets. */
  class WritingCollection {
    var docs: map<WritingId, Writing>
    var nextId: nat

    /** Every stored writing's counter agrees with its likers. */
    ghost predicate Valid()
      reads this
    {
      forall id :: id in docs ==> id < nextId && CounterConsistent(docs[id])
    }

    constructor ()
      ensures Valid() && docs == map[]
    {
      docs := map[];
      nextId := 0;
    }

    method Insert(w: Writing) returns (id: WritingId)
      requires Valid() && CounterConsistent(w)
      modifies this
      ensures Valid()
      ensures id == old(nextId) && id !in old(docs)
      ensures docs == old(docs)[id := w] && nextId == old(nextId) + 1
    {
      id := nextId;
      docs := docs[id := w];
      nextId := nextId + 1;
    }

    method Save(id: WritingId, w: Writing)
      requires Valid() && id in docs && CounterConsistent(w)
      modifies this
      ensures Valid()
      ensures docs == old(docs)[id := w] && nextId == old(nextId)
    {
      docs := docs[id := w];
    }
  }

  /** The poets collection: documents, and the id the next insert gets. */
  class PoetCollection {
    var docs: map<PoetId, Poet>
    var nextId: nat

    ghost predicate Valid()
      reads this
    {
      forall id :: id in docs ==> id < nextId
    }

    constructor ()
      ensures Valid() && docs == map[]
    {
      docs := map[];
      nextId := 0;
    }

    method Insert(poet: Poet) returns (id: PoetId)
      requires Valid()
      modifies this
      ensures Valid()
      ensures id == old(nextId) && id !in old(docs)
      ensures docs == old(docs)[id := poet] && nextId == old(nextId) + 1
    {
      id := nextId;
      docs := docs[id := poet];
      nextId := nextId + 1;
    }

    method Save(id: PoetId, poet: Poet)
      requires Valid() && id in docs
      modifies this
      ensures Valid()
      ensures docs == old(docs)[id := poet] && nextId == old(nextId)
    {
      docs := docs[id := poet];
    }
  }
}

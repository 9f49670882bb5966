/** controllers/poetController.js: following and unfollowing a poet (a list
    on the user plus a counter on the poet), creating and updating a poet
    with the comma-list languages field, toggling the featured flag, and
    the filter the list endpoint builds. The handlers are step functions
    over the poets and users collections; the methods at the end perform
    them on a PoetCollection and a UserCollection. */
module PoetController {
  import opened Common
  import opened UserModel
  import opened UserStore
  import opened ContentModel

  type Poets = map<PoetId, Poet>

  datatype PoetReply =
    | PoetNotFound                         // 404 Poet not found
    | FollowUnauthorized                   // 401 Unauthorized: the caller's record is gone
    | FollowState(following: bool, followersCount: int)
    | PoetInvalid                          // 400 with the validation message
    | PoetCreated(id: PoetId, poet: Poet)  // 201
    | PoetUpdated(poet: Poet)              // the updated document
    | PoetFeaturedNow(featured: bool)

  /** follow and unfollow write both collections. */
  datatype PoetOutcome = PoetOutcome(poets: Poets, users: Users, reply: PoetReply)

  /** The other handlers write the poets collection only. */
  datatype CatalogOutcome = CatalogOutcome(poets: Poets, reply: PoetReply)

  // ----- follow and unfollow -----

  /** The poet and the user after a follow or an unfollow. */
  datatype Pair = Pair(poet: Poet, user: User)

  /** follow on the fetched documents: push the poet and count one more
      follower, unless the user already follows it. */
  function Followed(poet: Poet, u: User, pid: PoetId): (r: Pair)
    ensures pid in r.user.followingPoets
    ensures forall q :: q in r.user.followingPoets <==> q in u.followingPoets || q == pid
    ensures pid in u.followingPoets ==> r == Pair(poet, u)
    ensures pid !in u.followingPoets ==> r.poet.followersCount == poet.followersCount + 1
    ensures r.poet == poet.(followersCount := r.poet.followersCount)
    ensures r.user == u.(followingPoets := r.user.followingPoets)
  {
    if pid in u.followingPoets then Pair(poet, u)
    else Pair(poet.(followersCount := poet.followersCount + 1), u.(followingPoets := u.followingPoets + [pid]))
  }

  /** unfollow on the fetched documents: drop every occurrence of the poet,
      and count one follower less only if one was dropped and the count is
      positive. */
  function Unfollowed(poet: Poet, u: User, pid: PoetId): (r: Pair)
    ensures pid !in r.user.followingPoets
    ensures forall q :: q in r.user.followingPoets <==> q in u.followingPoets && q != pid
    ensures r.poet.followersCount == if pid in u.followingPoets && poet.followersCount > 0
                                     then poet.followersCount - 1 else poet.followersCount
    ensures poet.followersCount >= 0 ==> r.poet.followersCount >= 0
    ensures r.poet == poet.(followersCount := r.poet.followersCount)
    ensures r.user == u.(followingPoets := r.user.followingPoets)
  {
    var kept := RemoveAll(u.followingPoets, pid);
    var count := if |kept| != |u.followingPoets| && poet.followersCount > 0 then poet.followersCount - 1
                 else poet.followersCount;
    Pair(poet.(followersCount := count), u.(followingPoets := kept))
  }

  /** Following twice is following once; unfollowing twice is unfollowing
      once; a non-negative count stays non-negative either way. */
  lemma FollowIdempotent(poet: Poet, u: User, pid: PoetId)
    ensures var once := Followed(poet, u, pid);
      Followed(once.poet, once.user, pid) == once
    ensures var once := Unfollowed(poet, u, pid);
      Unfollowed(once.poet, once.user, pid) == once
    ensures poet.followersCount >= 0 ==> Followed(poet, u, pid).poet.followersCount >= 0
  {
  }

  /** Unfollowing right after a first follow restores both records, as
      long as the count was not negative. */
  lemma UnfollowUndoesFollow(poet: Poet, u: User, pid: PoetId)
    requires pid !in u.followingPoets && poet.followersCount >= 0
    ensures var f := Followed(poet, u, pid);
      Unfollowed(f.poet, f.user, pid) == Pair(poet, u)
  {
    RemoveAllAppended(u.followingPoets, pid);
  }

  function FollowStep(poets: Poets, users: Users, pid: PoetId, uid: UserId): PoetOutcome {
    if pid !in poets then PoetOutcome(poets, users, PoetNotFound)
    else if uid !in users then PoetOutcome(poets, users, FollowUnauthorized)
    else
      var r := Followed(poets[pid], users[uid], pid);
      PoetOutcome(poets[pid := r.poet], users[uid := r.user], FollowState(true, r.poet.followersCount))
  }

  function UnfollowStep(poets: Poets, users: Users, pid: PoetId, uid: UserId): PoetOutcome {
    if pid !in poets then PoetOutcome(poets, users, PoetNotFound)
    else if uid !in users then PoetOutcome(poets, users, FollowUnauthorized)
    else
      var r := Unfollowed(poets[pid], users[uid], pid);
      PoetOutcome(poets[pid := r.poet], users[uid := r.user], FollowState(false, r.poet.followersCount))
  }

  /** An unknown poet is 404 even when the user is gone too; then a missing
      user is 401; both change nothing. Otherwise only the poet's count and
      the user's list move, and the reply reports the new count. */
  lemma FollowRouting(poets: Poets, users: Users, pid: PoetId, uid: UserId)
    ensures pid !in poets ==> FollowStep(poets, users, pid, uid) == PoetOutcome(poets, users, PoetNotFound)
    ensures pid !in poets ==> UnfollowStep(poets, users, pid, uid) == PoetOutcome(poets, users, PoetNotFound)
    ensures pid in poets && uid !in users ==> FollowStep(poets, users, pid, uid) == PoetOutcome(poets, users, FollowUnauthorized)
    ensures pid in poets && uid !in users ==> UnfollowStep(poets, users, pid, uid) == PoetOutcome(poets, users, FollowUnauthorized)
    ensures pid in poets && uid in users ==>
      var o := FollowStep(poets, users, pid, uid);
      && o.poets.Keys == poets.Keys && o.users.Keys == users.Keys
      && (forall q :: q in poets && q != pid ==> o.poets[q] == poets[q])
      && (forall j :: j in users && j != uid ==> o.users[j] == users[j])
      && pid in o.users[uid].followingPoets
      && o.reply == FollowState(true, o.poets[pid].followersCount)
    ensures pid in poets && uid in users ==>
      var o := UnfollowStep(poets, users, pid, uid);
      && o.poets.Keys == poets.Keys && o.users.Keys == users.Keys
      && (forall q :: q in poets && q != pid ==> o.poets[q] == poets[q])
      && (forall j :: j in users && j != uid ==> o.users[j] == users[j])
      && pid !in o.users[uid].followingPoets
      && o.reply == FollowState(false, o.poets[pid].followersCount)
  {
  }

  // ----- the follower count is exact -----

  /** The users whose list holds the poet. */
  function Followers(users: Users, pid: PoetId): set<UserId> {
    set id | id in users && pid in users[id].followingPoets
  }

  /** Every poet's count is the number of users following it, and no user
      lists a poet twice. */
  predicate CountsExact(poets: Poets, users: Users) {
    && (forall pid :: pid in poets ==> poets[pid].followersCount == |Followers(users, pid)|)
    && (forall id :: id in users ==> NoDuplicates(users[id].followingPoets))
  }

  /** Changing one user's list alone, the followers of a poet whose
      membership in that list is unchanged stay the same. */
  lemma FollowersUnchanged(users: Users, uid: UserId, u: User, q: PoetId)
    requires uid in users && (q in u.followingPoets <==> q in users[uid].followingPoets)
    ensures Followers(users[uid := u], q) == Followers(users, q)
  {
    assert forall j :: j in Followers(users[uid := u], q) <==> j in Followers(users, q);
  }

  /** Adding the poet to one user's list adds that user to its followers. */
  lemma FollowersGain(users: Users, uid: UserId, u: User, pid: PoetId)
    requires uid in users && pid !in users[uid].followingPoets && pid in u.followingPoets
    ensures Followers(users[uid := u], pid) == Followers(users, pid) + {uid}
    ensures uid !in Followers(users, pid)
  {
    assert forall j :: j in Followers(users[uid := u], pid) <==> j in Followers(users, pid) + {uid};
  }

  /** Dropping the poet from one user's list removes that user from its followers. */
  lemma FollowersLose(users: Users, uid: UserId, u: User, pid: PoetId)
    requires uid in users && pid in users[uid].followingPoets && pid !in u.followingPoets
    ensures Followers(users[uid := u], pid) == Followers(users, pid) - {uid}
    ensures uid in Followers(users, pid)
  {
    assert forall j :: j in Followers(users[uid := u], pid) <==> j in Followers(users, pid) - {uid};
  }

  /** follow keeps every count exact. */
  lemma FollowKeepsCountsExact(poets: Poets, users: Users, pid: PoetId, uid: UserId)
    requires CountsExact(poets, users)
    ensures CountsExact(FollowStep(poets, users, pid, uid).poets, FollowStep(poets, users, pid, uid).users)
  {
    if pid in poets && uid in users && pid in users[uid].followingPoets {
      var o := FollowStep(poets, users, pid, uid);
      assert o.poets == poets && o.users == users;
    } else if pid in poets && uid in users {
      var o := FollowStep(poets, users, pid, uid);
      var u := o.users[uid];
      FollowersGain(users, uid, u, pid);
      forall q | q in o.poets ensures o.poets[q].followersCount == |Followers(o.users, q)| {
        if q != pid {
          FollowersUnchanged(users, uid, u, q);
        }
      }
      var s := users[uid].followingPoets + [pid];
      assert NoDuplicates(s) by {
        forall i, j | 0 <= i < j < |s| ensures s[i] != s[j] {
          assert s[i] == users[uid].followingPoets[i];
          if j < |s| - 1 {
            assert s[j] == users[uid].followingPoets[j];
          }
        }
      }
    }
  }

  /** unfollow keeps every count exact: the count it decrements is the
      number of followers, which is positive while the user follows. */
  lemma UnfollowKeepsCountsExact(poets: Poets, users: Users, pid: PoetId, uid: UserId)
    requires CountsExact(poets, users)
    ensures CountsExact(UnfollowStep(poets, users, pid, uid).poets, UnfollowStep(poets, users, pid, uid).users)
  {
    if pid in poets && uid in users {
      var o := UnfollowStep(poets, users, pid, uid);
      var u := o.users[uid];
      RemoveAllKeepsNoDuplicates(users[uid].followingPoets, pid);
      if pid in users[uid].followingPoets {
        FollowersLose(users, uid, u, pid);
      } else {
        FollowersUnchanged(users, uid, u, pid);
      }
      forall q | q in o.poets && q != pid ensures o.poets[q].followersCount == |Followers(o.users, q)| {
        FollowersUnchanged(users, uid, u, q);
      }
    }
  }

  // ----- the languages field -----

  /** `languages` as the request body carries it. */
  datatype LanguagesField = LangAbsent | LangString(s: string) | LangList(items: seq<string>)

  /** update: a string is split on commas, trimmed and emptied of blanks;
      a list is taken as it is. */
  function PatchLanguages(field: LanguagesField): (r: Option<seq<string>>)
    ensures r.None? <==> field.LangAbsent?
    ensures field.LangString? ==> r == Some(ParseCommaList(field.s))
    ensures field.LangList? ==> r == Some(field.items)
  {
    match field
    case LangAbsent => None
    case LangString(s) => Some(ParseCommaList(s))
    case LangList(items) => Some(items)
  }

  /** create: the same parsing, then `languages?.length ? languages : ['hi']`. */
  function CreateLanguages(field: LanguagesField): (r: seq<string>)
    ensures |r| >= 1
    ensures PatchLanguages(field).Some? && |PatchLanguages(field).value| >= 1 ==> r == PatchLanguages(field).value
    ensures PatchLanguages(field).None? || PatchLanguages(field).value == [] ==> r == ["hi"]
  {
    var parsed := PatchLanguages(field);
    if parsed.Some? && |parsed.value| > 0 then parsed.value else ["hi"]
  }

  // ----- create -----

  /** The request body of POST /api/poets; an absent `featured` is null. */
  datatype PoetForm = PoetForm(name: Option<string>, aka: Option<string>, era: Option<string>, avatarUrl: Option<string>,
                               bioShort: Option<string>, bio: Option<string>, languages: LanguagesField, featured: Json)

  function PoetDoc(form: PoetForm): NewPoet {
    NewPoet(form.name, form.aka, form.era, form.avatarUrl, form.bioShort, form.bio,
            CreateLanguages(form.languages), Truthy(form.featured))
  }

  function CreatePoetStep(poets: Poets, form: PoetForm, newId: PoetId): CatalogOutcome {
    match InstantiatePoet(PoetDoc(form))
    case None => CatalogOutcome(poets, PoetInvalid)
    case Some(poet) => CatalogOutcome(poets[newId := poet], PoetCreated(newId, poet))
  }

  /** A poet is created exactly when the trimmed name is not blank and each
      language, after parsing, is "hi" or "en"; it then has at least one
      language (Hindi when none was given, or a string of only commas and
      spaces), `featured` is the truthiness of the field, and no
      followers. A refusal is 400 and changes nothing. */
  lemma CreatePoetDefaults(poets: Poets, form: PoetForm, newId: PoetId)
    ensures var o := CreatePoetStep(poets, form, newId);
      && (o.reply.PoetCreated? <==>
            form.name.Some? && Trim(form.name.value) != "" && ParseLanguages(CreateLanguages(form.languages)).Some?)
      && (!o.reply.PoetCreated? ==> o.poets == poets && o.reply == PoetInvalid)
      && (o.reply.PoetCreated? ==>
            var poet := o.reply.poet;
            && o.reply.id == newId && o.poets == poets[newId := poet]
            && poet.name == Trim(form.name.value)
            && |poet.languages| >= 1
            && (form.languages.LangAbsent? ==> poet.languages == [Hindi])
            && (form.languages.LangString? && ParseCommaList(form.languages.s) == [] ==> poet.languages == [Hindi])
            && (poet.featured <==> Truthy(form.featured))
            && poet.followersCount == 0)
  {
    var o := CreatePoetStep(poets, form, newId);
    if o.reply.PoetCreated? {
      var langs := CreateLanguages(form.languages);
      if langs == ["hi"] {
        assert LanguageName(o.reply.poet.languages[0]) == "hi";
      }
    }
  }

  // ----- update -----

  /** The `$set` of PATCH /api/poets/:id: any schema field the body names. */
  datatype PoetPatch = PoetPatch(name: Option<string>, aka: Option<string>, era: Option<string>, avatarUrl: Option<string>,
                                 bioShort: Option<string>, bio: Option<string>, languages: LanguagesField,
                                 featured: Option<bool>, followersCount: Option<int>)

  function Override<T>(current: T, given: Option<T>): T {
    if given.Some? then given.value else current
  }

  /** The update validators (run before the lookup): a name that is set
      must be non-blank once trimmed, and every language must be in the enum. */
  predicate PatchValid(patch: PoetPatch) {
    && (patch.name.Some? ==> Trim(patch.name.value) != "")
    && (PatchLanguages(patch.languages).Some? ==> ParseLanguages(PatchLanguages(patch.languages).value).Some?)
  }

  /** The document after `$set`, setters applied. */
  function Patched(poet: Poet, patch: PoetPatch): (r: Poet)
    requires PatchValid(patch)
  {
    var langs := PatchLanguages(patch.languages);
    Poet(if patch.name.Some? then Trim(patch.name.value) else poet.name,
         if patch.aka.Some? then TrimField(patch.aka) else poet.aka,
         if patch.era.Some? then TrimField(patch.era) else poet.era,
         if patch.avatarUrl.Some? then patch.avatarUrl else poet.avatarUrl,
         if patch.bioShort.Some? then patch.bioShort else poet.bioShort,
         if patch.bio.Some? then patch.bio else poet.bio,
         if langs.Some? then ParseLanguages(langs.value).value else poet.languages,
         Override(poet.featured, patch.featured),
         Override(poet.followersCount, patch.followersCount))
  }

  /** `langs` are the languages whose names are `names`, in order. */
  predicate LanguagesNamed(langs: seq<Language>, names: seq<string>) {
    |langs| == |names| && forall k :: 0 <= k < |names| ==> LanguageName(langs[k]) == names[k]
  }

  function UpdatePoetStep(poets: Poets, id: PoetId, patch: PoetPatch): CatalogOutcome {
    if !PatchValid(patch) then CatalogOutcome(poets, PoetInvalid)
    else if id !in poets then CatalogOutcome(poets, PoetNotFound)
    else
      var poet := Patched(poets[id], patch);
      CatalogOutcome(poets[id := poet], PoetUpdated(poet))
  }

  /** An invalid patch is 400 even for an unknown poet; then an unknown
      poet is 404; both change nothing. Otherwise only that poet changes:
      each field the patch names takes the value sent (name, aka and era
      trimmed), languages are the enum values of the items sent (a string
      parsed as a comma list, with no default), and every field the patch
      leaves out keeps its value. */
  lemma UpdatePoetEffect(poets: Poets, id: PoetId, patch: PoetPatch)
    ensures var o := UpdatePoetStep(poets, id, patch);
      && (o.reply == PoetInvalid <==> !PatchValid(patch))
      && (o.reply == PoetNotFound <==> PatchValid(patch) && id !in poets)
      && (!o.reply.PoetUpdated? ==> o.poets == poets)
      && (o.reply.PoetUpdated? ==>
            var p := o.reply.poet;
            && o.poets == poets[id := p]
            && (patch.name.Some? ==> p.name == Trim(patch.name.value) && p.name != "")
            && (patch.name.None? ==> p.name == poets[id].name)
            && (patch.aka.Some? ==> p.aka == Some(Trim(patch.aka.value)))
            && (patch.aka.None? ==> p.aka == poets[id].aka)
            && (patch.era.Some? ==> p.era == Some(Trim(patch.era.value)))
            && (patch.era.None? ==> p.era == poets[id].era)
            && (patch.avatarUrl.Some? ==> p.avatarUrl == patch.avatarUrl)
            && (patch.avatarUrl.None? ==> p.avatarUrl == poets[id].avatarUrl)
            && (patch.bioShort.Some? ==> p.bioShort == patch.bioShort)
            && (patch.bioShort.None? ==> p.bioShort == poets[id].bioShort)
            && (patch.bio.Some? ==> p.bio == patch.bio)
            && (patch.bio.None? ==> p.bio == poets[id].bio)
            && (patch.languages.LangAbsent? ==> p.languages == poets[id].languages)
            && (!patch.languages.LangAbsent? ==> LanguagesNamed(p.languages, PatchLanguages(patch.languages).value))
            && (patch.featured.Some? ==> p.featured == patch.featured.value)
            && (patch.featured.None? ==> p.featured == poets[id].featured)
            && (patch.followersCount.Some? ==> p.followersCount == patch.followersCount.value)
            && (patch.followersCount.None? ==> p.followersCount == poets[id].followersCount))
  {
  }

  /** A string of only commas and spaces parses to no items. */
  lemma BlankListParsesEmpty()
    ensures ParseCommaList(" , ") == []
  {
    var blank := " , ";
    assert Split(blank, ',') == [" ", " "] by {
      assert blank == " " + [','] + " ";
      SplitNoSep(" ", ',');
      SplitAtSep(" ", " ", ',');
    }
    assert Trim(" ") == "" by {
      assert AllSpace(" ");
    }
    assert TrimAll(Split(blank, ',')) == ["", ""];
    assert DropEmpty(["", ""]) == [];
  }

  /** The two handlers read a blank languages string differently. On
      create it falls back to Hindi ... */
  lemma BlankLanguagesDefaultOnCreate(poets: Poets, form: PoetForm, newId: PoetId)
    requires form.name.Some? && Trim(form.name.value) != ""
    requires form.languages == LangString(" , ")
    ensures var r := CreatePoetStep(poets, form, newId).reply;
      r.PoetCreated? && r.poet.languages == [Hindi]
  {
    BlankListParsesEmpty();
    var doc := PoetDoc(form);
    assert doc.languages == ["hi"];
    DefaultLanguageInstantiates(doc);
  }

  /** A poet document with a name and the default languages is created with Hindi. */
  lemma DefaultLanguageInstantiates(doc: NewPoet)
    requires doc.name.Some? && Trim(doc.name.value) != "" && doc.languages == ["hi"]
    ensures InstantiatePoet(doc).Some? && InstantiatePoet(doc).value.languages == [Hindi]
  {
    DefaultLanguageParses();
  }

  /** The default `['hi']` passes the enum check as Hindi. */
  lemma DefaultLanguageParses()
    ensures ParseLanguages(["hi"]) == Some([Hindi])
  {
    var parsed := ParseLanguages(["hi"]);
    assert ParseLanguage(["hi"][0]).Some?;
    assert |parsed.value| == 1 && LanguageName(parsed.value[0]) == "hi";
    assert parsed.value[0] == Hindi by {
      assert LanguageName(English) != "hi";
    }
    assert parsed.value == [parsed.value[0]];
  }

  /** ... while on update it stores no language at all. */
  lemma BlankLanguagesEmptyOnUpdate(poets: Poets, id: PoetId)
    requires id in poets
    ensures var r := UpdatePoetStep(poets, id, PoetPatch(None, None, None, None, None, None, LangString(" , "), None, None)).reply;
      r.PoetUpdated? && r.poet.languages == []
  {
    BlankListParsesEmpty();
    var patch := PoetPatch(None, None, None, None, None, None, LangString(" , "), None, None);
    assert PatchLanguages(patch.languages) == Some([]);
    assert ParseLanguages([]) == Some([]);
    assert PatchValid(patch);
    assert Patched(poets[id], patch).languages == [];
  }

  // ----- toggleFeatured -----

  function ToggleFeaturedStep(poets: Poets, id: PoetId): CatalogOutcome {
    if id !in poets then CatalogOutcome(poets, PoetNotFound)
    else
      var poet := poets[id].(featured := !poets[id].featured);
      CatalogOutcome(poets[id := poet], PoetFeaturedNow(poet.featured))
  }

  /** Toggling negates that poet's flag only, and toggling twice gives the
      collection back. */
  lemma ToggleFeaturedTwice(poets: Poets, id: PoetId)
    ensures var o := ToggleFeaturedStep(poets, id);
      && (id !in poets ==> o.poets == poets && o.reply == PoetNotFound)
      && (id in poets ==> o.reply == PoetFeaturedNow(!poets[id].featured)
                          && o.poets[id] == poets[id].(featured := !poets[id].featured))
      && ToggleFeaturedStep(o.poets, id).poets == poets
  {
    if id in poets {
      var once := ToggleFeaturedStep(poets, id).poets;
      assert once[id].(featured := !once[id].featured) == poets[id];
    }
  }

  // ----- the list filter -----

  datatype PoetListParams = PoetListParams(q: Option<string>, language: Option<string>, era: Option<string>, featured: Option<string>)

  /** The filter handed to Poet.find: `text` is matched, case-insensitively,
      against name, aka or bioShort, `language` must be among the poet's
      languages, `eraPattern` is matched case-insensitively against era. */
  datatype PoetFilter = PoetFilter(text: Option<string>, language: Option<string>, eraPattern: Option<string>, featured: Option<bool>)

  function PoetListFilter(params: PoetListParams): (f: PoetFilter)
    ensures f.language.Some? <==> Present(params.language) && params.language.value != "all"
    ensures f.language.Some? ==> f.language == params.language
    ensures f.eraPattern.Some? <==> Present(params.era) && params.era.value != "all"
    ensures f.eraPattern.Some? ==> f.eraPattern == params.era
    ensures f.featured.Some? <==> params.featured.Some?
    ensures f.featured.Some? ==> (f.featured.value <==> params.featured.value == "true")
    ensures f.text.Some? <==> Present(params.q)
    ensures f.text.Some? ==> f.text == params.q
  {
    PoetFilter(
      if Present(params.q) then params.q else None,
      if Present(params.language) && params.language.value != "all" then params.language else None,
      if Present(params.era) && params.era.value != "all" then params.era else None,
      if params.featured.Some? then Some(params.featured.value == "true") else None)
  }

  // ----- the handlers, performed on the collections -----

  /** POST /api/poets/:id/follow */
  method Follow(poets: PoetCollection, users: UserCollection, pid: PoetId, uid: UserId) returns (reply: PoetReply)
    requires poets.Valid() && users.Valid()
    modifies poets, users
    ensures poets.Valid() && users.Valid()
    ensures poets.nextId == old(poets.nextId) && users.nextId == old(users.nextId)
    ensures PoetOutcome(poets.docs, users.docs, reply) == FollowStep(old(poets.docs), old(users.docs), pid, uid)
  {
    if pid !in poets.docs {
      return PoetNotFound;
    }
    if uid !in users.docs {
      return FollowUnauthorized;
    }
    var poet := poets.docs[pid];
    var user := users.docs[uid];
    if pid !in user.followingPoets {
      user := user.(followingPoets := user.followingPoets + [pid]);
      poet := poet.(followersCount := poet.followersCount + 1);
      users.Save(uid, user);
      poets.Save(pid, poet);
    }
    return FollowState(true, poet.followersCount);
  }

  /** POST /api/poets/:id/unfollow */
  method Unfollow(poets: PoetCollection, users: UserCollection, pid: PoetId, uid: UserId) returns (reply: PoetReply)
    requires poets.Valid() && users.Valid()
    modifies poets, users
    ensures poets.Valid() && users.Valid()
    ensures poets.nextId == old(poets.nextId) && users.nextId == old(users.nextId)
    ensures PoetOutcome(poets.docs, users.docs, reply) == UnfollowStep(old(poets.docs), old(users.docs), pid, uid)
  {
    if pid !in poets.docs {
      return PoetNotFound;
    }
    if uid !in users.docs {
      return FollowUnauthorized;
    }
    var poet := poets.docs[pid];
    var user := users.docs[uid];
    var before := |user.followingPoets|;
    user := user.(followingPoets := RemoveAll(user.followingPoets, pid));
    if |user.followingPoets| != before && poet.followersCount > 0 {
      poet := poet.(followersCount := poet.followersCount - 1);
    }
    users.Save(uid, user);
    poets.Save(pid, poet);
    return FollowState(false, poet.followersCount);
  }

  /** POST /api/poets, admin only. */
  method CreatePoet(poets: PoetCollection, form: PoetForm) returns (reply: PoetReply)
    requires poets.Valid()
    modifies poets
    ensures poets.Valid()
    ensures CatalogOutcome(poets.docs, reply) == CreatePoetStep(old(poets.docs), form, old(poets.nextId))
    ensures poets.nextId == if reply.PoetCreated? then old(poets.nextId) + 1 else old(poets.nextId)
  {
    var languages := CreateLanguages(form.languages);
    var poet := InstantiatePoet(NewPoet(form.name, form.aka, form.era, form.avatarUrl, form.bioShort, form.bio,
                                        languages, Truthy(form.featured)));
    if poet.None? {
      return PoetInvalid;
    }
    var id := poets.Insert(poet.value);
    return PoetCreated(id, poet.value);
  }

  /** PATCH /api/poets/:id, admin only. */
  method UpdatePoet(poets: PoetCollection, id: PoetId, patch: PoetPatch) returns (reply: PoetReply)
    requires poets.Valid()
    modifies poets
    ensures poets.Valid() && poets.nextId == old(poets.nextId)
    ensures CatalogOutcome(poets.docs, reply) == UpdatePoetStep(old(poets.docs), id, patch)
  {
    if !PatchValid(patch) {
      return PoetInvalid;
    }
    if id !in poets.docs {
      return PoetNotFound;
    }
    var poet := Patched(poets.docs[id], patch);
    poets.Save(id, poet);
    return PoetUpdated(poet);
  }

  /** POST /api/poets/:id/toggle-featured, admin only. */
  method ToggleFeatured(poets: PoetCollection, id: PoetId) returns (reply: PoetReply)
    requires poets.Valid()
    modifies poets
    ensures poets.Valid() && poets.nextId == old(poets.nextId)
    ensures CatalogOutcome(poets.docs, reply) == ToggleFeaturedStep(old(poets.docs), id)
  {
    if id !in poets.docs {
      return PoetNotFound;
    }
    var poet := poets.docs[id];
    poet := poet.(featured := !poet.featured);
    poets.Save(id, poet);
    return PoetFeaturedNow(poet.featured);
  }
}

/** What the commands leave behind in the world, as it is read afterwards. */
module Effects {
  import opened Wrappers
  import opened Trees
  import opened Paths
  import opened Dotted
  import opened Commands
  import opened World
  import Text

  // ---- Which document is meant ---------------------------------------------------------------------

  /** The position of the first document that passes. */
  ghost predicate FirstAt<T>(docs: Docs<T>, test: T -> bool, i: int) {
    0 <= i < |docs| && test(docs[i].1) && forall j | 0 <= j < i :: !test(docs[j].1)
  }

  lemma {:induction false} FindIs<T>(docs: Docs<T>, test: T -> bool)
    ensures match Find(docs, test)
      case None => forall i | 0 <= i < |docs| :: !test(docs[i].1)
      case Some(id) => exists i :: FirstAt(docs, test, i) && docs[i].0 == id
  {
    if docs != [] && !test(docs[0].1) {
      FindIs(docs[1..], test);
      assert forall i | 0 < i < |docs| :: docs[i] == docs[1..][i - 1];
      match Find(docs[1..], test) {
        case None =>
        case Some(id) =>
          var i :| FirstAt(docs[1..], test, i) && docs[1..][i].0 == id;
          assert FirstAt(docs, test, i + 1) && docs[i + 1].0 == id;
      }
    } else if docs != [] {
      assert FirstAt(docs, test, 0);
    }
  }

  /** The first document under this id, where there is one; the first that passes otherwise. */
  ghost predicate Means<T(!new)>(docs: Docs<T>, ref: string, test: T -> bool, found: Option<string>) {
    if exists i | 0 <= i < |docs| :: docs[i].0 == ref then found == Some(ref)
    else match found
      case None => forall i | 0 <= i < |docs| :: !test(docs[i].1)
      case Some(id) => exists i :: FirstAt(docs, test, i) && docs[i].0 == id
  }

  lemma {:induction false} LookedUp<T(!new)>(docs: Docs<T>, ref: string, test: T -> bool)
    ensures Means(docs, ref, test, if Has(docs, ref) then Some(ref) else Find(docs, test))
  {
    FindIs(docs, test);
    assert Has(docs, ref) <==> exists i | 0 <= i < |docs| :: docs[i].0 == ref;
  }

  /** An actor is meant by its id, or else by its name whatever its case, the oldest first; the empty reference means
      none. */
  lemma {:induction false} ActorMeant(w: World, ref: string)
    ensures if ref == "" then ResolveActor(w, ref) == None
      else Means(w.actors, ref, (a: Actor) => Text.EqualFold(TextAt(a, "name"), ref), ResolveActor(w, ref))
  {
    var (lower, fold) := ((a: Actor) => Text.Lower(TextAt(a, "name")) == Text.Lower(ref),
      (a: Actor) => Text.EqualFold(TextAt(a, "name"), ref));
    forall a: Actor ensures lower(a) == fold(a) {
      Text.LowerEqualIff(TextAt(a, "name"), ref);
    }
    if ref != "" {
      LookedUp(w.actors, ref, lower);
      SameMeaning(w.actors, ref, lower, fold, ResolveActor(w, ref));
    }
  }

  lemma {:induction false} SceneMeant(w: World, ref: Option<string>)
    ensures if ref.None? || ref.value == "" then ResolveScene(w, ref) == w.current
      else Means(w.scenes, ref.value, (s: Scene) => Text.EqualFold(s.name, ref.value), ResolveScene(w, ref))
  {
    if ref.Some? {
      var (lower, fold) := ((s: Scene) => Text.Lower(s.name) == Text.Lower(ref.value),
        (s: Scene) => Text.EqualFold(s.name, ref.value));
      forall s: Scene ensures lower(s) == fold(s) {
        Text.LowerEqualIff(s.name, ref.value);
      }
      LookedUp(w.scenes, ref.value, lower);
      SameMeaning(w.scenes, ref.value, lower, fold,
        if Has(w.scenes, ref.value) then ref else Find(w.scenes, lower));
    }
  }

  lemma {:induction false} SameMeaning<T(!new)>(docs: Docs<T>, ref: string, test: T -> bool, test': T -> bool,
      found: Option<string>)
    requires forall doc :: test(doc) == test'(doc)
    requires Means(docs, ref, test, found)
    ensures Means(docs, ref, test', found)
  {
    if found.Some? {
      if i :| FirstAt(docs, test, i) && docs[i].0 == found.value {
        assert FirstAt(docs, test', i);
      }
    }
  }

  // ---- What else there is -------------------------------------------------------------------------------

  /** Under every other id there is what there was. */
  ghost predicate OnlyAt<T>(docs: Docs<T>, docs': Docs<T>, id: string) {
    forall other | other != id ::
      && (Has(docs', other) <==> Has(docs, other))
      && (Has(docs, other) ==> Get(docs', other) == Get(docs, other))
  }

  lemma OnlySet<T>(docs: Docs<T>, id: string, doc: T)
    requires Has(docs, id)
    ensures OnlyAt(docs, Set(docs, id, doc), id)
    ensures Has(Set(docs, id, doc), id) && Get(Set(docs, id, doc), id) == doc
  {
    SetTwice(docs, id, doc, doc);
    forall other | other != id {
      SetElsewhere(docs, id, doc, other);
    }
  }

  lemma OnlyAppended<T>(docs: Docs<T>, id: string, doc: T)
    requires !Has(docs, id)
    ensures var docs' := docs + [(id, doc)]; OnlyAt(docs, docs', id) && Has(docs', id) && Get(docs', id) == doc
  {
    HasAppended(docs, id, doc);
  }

  /** Of the world, nothing but tokens on this scene. */
  ghost predicate OnlyTokens(w: World, w': World, s: string) {
    && w' == w.(scenes := w'.scenes)
    && Has(w.scenes, s) && Has(w'.scenes, s) && OnlyAt(w.scenes, w'.scenes, s)
    && Get(w'.scenes, s) == Get(w.scenes, s).(tokens := Get(w'.scenes, s).tokens)
  }

  lemma TokensWritten(w: World, s: string, tokens: Docs<Token>)
    requires Has(w.scenes, s)
    ensures OnlyTokens(w, WithTokens(w, s, tokens), s) && SceneTokens(WithTokens(w, s, tokens), Some(s)) == tokens
  {
    OnlySet(w.scenes, s, Get(w.scenes, s).(tokens := tokens));
  }

  // ---- Tokens ---------------------------------------------------------------------------------------------

  /** The token is of this actor or bears the given name, whatever its case. */
  predicate StandsFor(t: Token, actor: string, name: Option<string>) {
    t.actorId == actor || (name.Some? && name.value != "" && Text.EqualFold(t.name, name.value))
  }

  /** What a spawn leaves under the id it returns: the first token that stands for the actor, playable by now if the
      actor is a character, or else a new one, where it was ordered. */
  ghost predicate TokenSpawned(tokens: Docs<Token>, who: string, doc: Actor, cmd: Command, newId: string, id: string,
      token: Token)
    requires cmd.SpawnToken?
  {
    var test := (t: Token) => StandsFor(t, who, cmd.tokenName);
    var character := TextAt(doc, "type") == "character";
    if exists i | 0 <= i < |tokens| :: test(tokens[i].1) then
      (exists i :: FirstAt(tokens, test, i) && tokens[i].0 == id) && Has(tokens, id)
        && token == Get(tokens, id).(playable := Get(tokens, id).playable || character)
    else
      && id == newId && token.x == cmd.x && token.y == cmd.y && token.actorId == who
      && token.name == (if cmd.tokenName.Some? then cmd.tokenName.value else TextAt(doc, "name"))
      && token.playable == character
  }

  lemma {:induction false} TokenFound(tokens: Docs<Token>, who: string, name: Option<string>)
    ensures var test := (t: Token) => StandsFor(t, who, name);
      match Find(tokens, SameToken(who, name))
      case None => forall i | 0 <= i < |tokens| :: !test(tokens[i].1)
      case Some(id) => exists i :: FirstAt(tokens, test, i) && tokens[i].0 == id
  {
    var test := (t: Token) => StandsFor(t, who, name);
    forall t: Token ensures SameToken(who, name)(t) == test(t) {
      if name.Some? {
        Text.LowerEqualIff(t.name, name.value);
      }
    }
    FindIs(tokens, SameToken(who, name));
    if Find(tokens, SameToken(who, name)).Some? {
      var i :| FirstAt(tokens, SameToken(who, name), i) && tokens[i].0 == Find(tokens, SameToken(who, name)).value;
      assert FirstAt(tokens, test, i);
    }
  }

  /** The reply names a token on the scene that is as described, and is read at its place; nothing else changed. */
  ghost predicate SpawnDone(w: World, w': World, at: string, who: string, cmd: Command, newId: string, id: string)
    requires cmd.SpawnToken? && Has(w.actors, who)
  {
    var tokens, tokens' := SceneTokens(w, Some(at)), SceneTokens(w', Some(at));
    && OnlyTokens(w, w', at) && OnlyAt(tokens, tokens', id) && Has(tokens', id)
    && var token := Get(tokens', id);
       && TokenSpawned(tokens, who, Get(w.actors, who), cmd, newId, id, token)
       && ExecReadToken(w', Some(at), id) == Success(TokenRead(Some((token.x, token.y))))
  }

  /** A spawn succeeds exactly where scene and actor are found. */
  lemma {:induction false} Spawned(w: World, cmd: Command, luck: Luck)
    requires cmd.SpawnToken? && Proper(w) && Fresh(w, luck.newId)
    ensures var (w', r) := Exec(w, cmd, luck);
      var at, who := ResolveScene(w, Some(cmd.sceneId)), ResolveActor(w, cmd.actor);
      if at.None? || !Has(w.scenes, at.value) || who.None? then r == Failure && w' == w
      else r.Success? && r.body.Created? && SpawnDone(w, w', at.value, who.value, cmd, luck.newId, r.body.id)
  {
    hide TokenSpawned, SpawnDone, SameToken, OnlyTokens, OnlyAt, Text.Lower, Text.EqualFold;
    var at, who := ResolveScene(w, Some(cmd.sceneId)), ResolveActor(w, cmd.actor);
    if at.Some? && Has(w.scenes, at.value) && who.Some? {
      match Find(SceneTokens(w, at), SameToken(who.value, cmd.tokenName)) {
        case None => NewToken(w, at.value, who.value, cmd, luck.newId);
        case Some(id) => OldToken(w, at.value, who.value, cmd, luck.newId, id);
      }
    }
  }

  lemma {:induction false} NewToken(w: World, at: string, who: string, cmd: Command, newId: string)
    requires cmd.SpawnToken? && Proper(w) && Fresh(w, newId) && Has(w.scenes, at) && Has(w.actors, who)
    requires Find(SceneTokens(w, Some(at)), SameToken(who, cmd.tokenName)).None?
    ensures var doc: Actor := Get(w.actors, who);
      var name := if cmd.tokenName.Some? then cmd.tokenName.value else TextAt(doc, "name");
      var token := Token(name, who, cmd.x, cmd.y, TextAt(doc, "type") == "character");
      SpawnDone(w, WithTokens(w, at, SceneTokens(w, Some(at)) + [(newId, token)]), at, who, cmd, newId, newId)
  {
    var tokens, doc: Actor := SceneTokens(w, Some(at)), Get(w.actors, who);
    var name := if cmd.tokenName.Some? then cmd.tokenName.value else TextAt(doc, "name");
    var token := Token(name, who, cmd.x, cmd.y, TextAt(doc, "type") == "character");
    TokenFound(tokens, who, cmd.tokenName);
    OnlyAppended(tokens, newId, token);
    TokensWritten(w, at, tokens + [(newId, token)]);
    hide Find, OnlyAt, FirstAt, Text.EqualFold;
    ReadBack(WithTokens(w, at, tokens + [(newId, token)]), at, newId);
  }

  lemma {:induction false} OldToken(w: World, at: string, who: string, cmd: Command, newId: string, id: string)
    requires cmd.SpawnToken? && Proper(w) && Has(w.scenes, at) && Has(w.actors, who)
    requires Find(SceneTokens(w, Some(at)), SameToken(who, cmd.tokenName)) == Some(id)
    ensures var tokens := SceneTokens(w, Some(at));
      var token := Get(tokens, id);
      var token' := if TextAt(Get(w.actors, who), "type") == "character" then token.(playable := true) else token;
      SpawnDone(w, WithTokens(w, at, Set(tokens, id, token')), at, who, cmd, newId, id)
  {
    var tokens := SceneTokens(w, Some(at));
    var token := Get(tokens, id);
    var token' := if TextAt(Get(w.actors, who), "type") == "character" then token.(playable := true) else token;
    TokenFound(tokens, who, cmd.tokenName);
    OnlySet(tokens, id, token');
    TokensWritten(w, at, Set(tokens, id, token'));
    hide Find, OnlyAt, Text.EqualFold;
    ReadBack(WithTokens(w, at, Set(tokens, id, token')), at, id);
  }

  lemma ReadBack(w: World, s: string, id: string)
    requires Has(w.scenes, s) && s != "" && Has(Get(w.scenes, s).tokens, id)
    ensures var token := Get(Get(w.scenes, s).tokens, id);
      ExecReadToken(w, Some(s), id) == Success(TokenRead(Some((token.x, token.y))))
  {
  }

  /** A move succeeds exactly for a token on the current scene; the token is then read where it was sent, its other data
      and all other tokens as they were. */
  lemma {:induction false} Moved(w: World, cmd: Command, luck: Luck)
    requires cmd.MoveToken? && Proper(w)
    ensures var (w', r) := Exec(w, cmd, luck);
      var tokens, tokens', id := SceneTokens(w, w.current), SceneTokens(w', w.current), cmd.token;
      if w.current.None? || !Has(tokens, id) then r == Failure && w' == w
      else
        && r == Success(Plain) && OnlyTokens(w, w', w.current.value)
        && OnlyAt(tokens, tokens', id) && Has(tokens', id)
        && var token := Get(tokens', id);
           && token.x == cmd.x && token.y == cmd.y && token == Get(tokens, id).(x := token.x, y := token.y)
           && ExecReadToken(w', None, id) == Success(TokenRead(Some((token.x, token.y))))
  {
    var tokens := SceneTokens(w, w.current);
    if w.current.Some? && Has(tokens, cmd.token) {
      var token := Get(tokens, cmd.token).(x := cmd.x, y := cmd.y);
      OnlySet(tokens, cmd.token, token);
      TokensWritten(w, w.current.value, Set(tokens, cmd.token, token));
    }
  }

  // ---- Scenes -----------------------------------------------------------------------------------------------

  /** The scene of that name is returned with the new measures, its tokens kept; where there is none, a new one without
      tokens is. Nothing else changes. */
  lemma {:induction false} SceneCreated(w: World, cmd: Command, luck: Luck)
    requires cmd.CreateScene? && Fresh(w, luck.newId)
    ensures var (w', r) := Exec(w, cmd, luck);
      var named := (s: Scene) => s.name == cmd.name;
      && r.Success? && r.body.Created? && w' == w.(scenes := w'.scenes)
      && var id := r.body.id;
         && OnlyAt(w.scenes, w'.scenes, id) && Has(w'.scenes, id)
         && (if exists i | 0 <= i < |w.scenes| :: named(w.scenes[i].1)
             then exists i :: FirstAt(w.scenes, named, i) && w.scenes[i].0 == id else id == luck.newId)
         && var scene := Get(w'.scenes, id);
            && scene.width == cmd.width && scene.height == cmd.height && scene.grid == cmd.grid
            && r.body.docName == scene.name
            && (if Has(w.scenes, id)
                then scene.tokens == Get(w.scenes, id).tokens && scene.name == Get(w.scenes, id).name
                else scene.tokens == [] && scene.name == cmd.name)
  {
    var named := (s: Scene) => s.name == cmd.name;
    FindIs(w.scenes, named);
    match Find(w.scenes, named) {
      case None =>
        OnlyAppended(w.scenes, luck.newId, Scene(cmd.name, cmd.width, cmd.height, cmd.grid, []));
      case Some(id) =>
        OnlySet(w.scenes, id, Get(w.scenes, id).(width := cmd.width, height := cmd.height, grid := cmd.grid));
    }
  }

  /** A scene is activated by its id or else by its exact name; it is then active and on the canvas, and is what
      `read_active_scene` reads. */
  lemma {:induction false} Activated(w: World, cmd: Command, luck: Luck)
    requires cmd.ActivateScene?
    ensures var (w', r) := Exec(w, cmd, luck);
      && Means(w.scenes, cmd.sceneId, (s: Scene) => s.name == cmd.sceneId, if r.Success? then w'.active else None)
      && (if r.Success? then w' == w.(active := w'.active, current := w'.active) && w'.active.Some?
            && ExecReadActive(w') == Success(SceneRead(w'.active))
          else w' == w)
  {
    LookedUp(w.scenes, cmd.sceneId, (s: Scene) => s.name == cmd.sceneId);
  }

  // ---- Actors -----------------------------------------------------------------------------------------------

  /** What a new actor has at its top level where no key of the system patch begins so. */
  function TopLevel(cmd: Command, k: string): Option<Tree>
    requires cmd.CreateActor?
  {
    if k == "name" then Some(Atom(cmd.name))
    else if k == "type" then Some(Atom(cmd.actorType))
    else if k == "img" && cmd.img.Some? && cmd.img.value != "" then Some(Atom(cmd.img.value))
    else None
  }

  /** Some key of the patch begins with this part. */
  ghost predicate Starts(patch: Patch, k: string) {
    exists i | 0 <= i < |patch| :: PathOf(patch[i].0)[0] == k
  }

  /** No key of the patch leads along the path or through it. */
  ghost predicate Misses(patch: Patch, p: Path) {
    forall i | 0 <= i < |patch| :: Apart(PathOf(patch[i].0), p)
  }

  /** A new actor: each key of a system patch without overlaps reads back, and where such keys begin there is nothing
      but their values; besides, the command's name, type and image. */
  ghost predicate ActorNew(cmd: Command, doc: Actor)
    requires cmd.CreateActor?
  {
    && (forall k: string | !Starts(cmd.system, k) :: GetAt(doc, [k]) == TopLevel(cmd, k))
    && (PrefixFree(cmd.system) ==>
          && (forall i | 0 <= i < |cmd.system| :: GetAt(doc, PathOf(cmd.system[i].0)) == Some(cmd.system[i].1))
          && (forall p: Path | Starts(cmd.system, p[0]) && Misses(cmd.system, p) :: GetAt(doc, p) == None))
  }

  lemma Overlaid(base: map<string, Tree>, laid: map<string, Tree>, p: Path)
    ensures GetAt(Dict(base + laid), p) == GetAt(Dict(if p[0] in laid then laid else base), p)
  {
  }

  lemma TopLevelIs(cmd: Command, k: string)
    requires cmd.CreateActor?
    ensures var image := if cmd.img.Some? && cmd.img.value != "" then map["img" := Atom(cmd.img.value)] else map[];
      GetAt(Dict(map["name" := Atom(cmd.name), "type" := Atom(cmd.actorType)] + image), [k]) == TopLevel(cmd, k)
  {
    assert "img" != "name" && "img" != "type" by {
      assert "img"[0] == 'i' && "name"[0] == 'n' && "type"[0] == 't';
    }
    assert [k][1..] == [];
  }

  lemma {:induction false} NewActorIs(cmd: Command, base: map<string, Tree>)
    requires cmd.CreateActor? && forall k: string :: GetAt(Dict(base), [k]) == TopLevel(cmd, k)
    ensures ActorNew(cmd, Dict(base + Expand(cmd.system)))
  {
    var patch := cmd.system;
    var laid := Expand(patch);
    hide Expand, PrefixFree, Apart, GetAt, TopLevel;
    forall k: string | !Starts(patch, k)
      ensures GetAt(Dict(base + laid), [k]) == TopLevel(cmd, k)
    {
      ExpandKeys(patch, k);
      Overlaid(base, laid, [k]);
    }
    if PrefixFree(patch) {
      forall i | 0 <= i < |patch|
        ensures GetAt(Dict(base + laid), PathOf(patch[i].0)) == Some(patch[i].1)
      {
        ExpandKeys(patch, PathOf(patch[i].0)[0]);
        Overlaid(base, laid, PathOf(patch[i].0));
        ExpandReadsBack(patch, i);
      }
      forall p: Path | Starts(patch, p[0]) && Misses(patch, p)
        ensures GetAt(Dict(base + laid), p) == None
      {
        ExpandKeys(patch, p[0]);
        Overlaid(base, laid, p);
        ExpandFree(patch, p);
        FreeIsAbsent(Dict(laid), p);
      }
    }
  }

  /** What stands at a path after `v` was laid over it. */
  function Laid(was: Option<Tree>, v: Tree): Tree {
    match was
    case None => v
    case Some(t) => Merge(t, v)
  }

  /** An actor after a patch without overlaps: the values are laid over what was there, and no other path changes, as
      far as the paths that count. */
  ghost predicate Patched(was: Actor, patch: Patch, doc: Actor, counts: Path -> bool) {
    PrefixFree(patch) ==>
      && (forall i | 0 <= i < |patch| && counts(PathOf(patch[i].0)) ::
           GetAt(doc, PathOf(patch[i].0)) == Some(Laid(GetAt(was, PathOf(patch[i].0)), patch[i].1)))
      && (forall p: Path | Misses(patch, p) && counts(p) :: GetAt(doc, p) == GetAt(was, p))
  }

  lemma {:induction false} UpdateIs(was: Actor, patch: Patch, counts: Path -> bool)
    ensures Patched(was, patch, Update(was, patch), counts)
  {
    hide Update, Apart, GetAt;
    if PrefixFree(patch) {
      forall i | 0 <= i < |patch| {
        UpdateAt(was, patch, i);
      }
      forall p: Path | Misses(patch, p)
        ensures GetAt(Update(was, patch), p) == GetAt(was, p)
      {
        UpdateElsewhere(was, patch, p);
      }
    }
  }

  lemma LaidApart(was: Actor, laid: map<string, Tree>, more: map<string, Tree>, p: Path)
    requires p[0] !in more
    ensures GetAt(Merge(was, Dict(laid + more)), p) == GetAt(Merge(was, Dict(laid)), p)
  {
    var all, part := Merge(was, Dict(laid + more)).props, Merge(was, Dict(laid)).props;
    assert p[0] in all <==> p[0] in part;
    assert p[0] in all ==> all[p[0]] == part[p[0]];
  }

  lemma LaidAtom(was: Actor, over: map<string, Tree>, k: string, text: string)
    requires k in over && over[k] == Atom(text)
    ensures GetAt(Merge(was, Dict(over)), [k]) == Some(Atom(text))
  {
    var all := Merge(was, Dict(over)).props;
    assert k in all && all[k] == if k in was.props then Merge(was.props[k], over[k]) else over[k];
    assert [k][1..] == [];
  }

  /** An actor that was there before: patched, and with the command's image if it gives one. */
  ghost predicate ActorSynced(cmd: Command, was: Actor, doc: Actor)
    requires cmd.CreateActor?
  {
    var image := cmd.img.Some? && cmd.img.value != "";
    && (image ==> GetAt(doc, ["img"]) == Some(Atom(cmd.img.value)))
    && Patched(was, cmd.system, doc, (p: Path) => image ==> p[0] != "img")
  }

  lemma {:induction false} SyncedActorIs(cmd: Command, was: Actor)
    requires cmd.CreateActor?
    ensures var image := if cmd.img.Some? && cmd.img.value != "" then map["img" := Atom(cmd.img.value)] else map[];
      ActorSynced(cmd, was, Merge(was, Dict(Expand(cmd.system) + image)))
  {
    var image := if cmd.img.Some? && cmd.img.value != "" then map["img" := Atom(cmd.img.value)] else map[];
    var doc := Merge(was, Dict(Expand(cmd.system) + image));
    if cmd.img.Some? && cmd.img.value != "" {
      assert (Expand(cmd.system) + image)["img"] == Atom(cmd.img.value);
      LaidAtom(was, Expand(cmd.system) + image, "img", cmd.img.value);
    }
    hide GetAt, Expand, Merge, Patched;
    UpdateIs(was, cmd.system, p => true);
    forall p: Path | p[0] !in image
      ensures GetAt(doc, p) == GetAt(Update(was, cmd.system), p)
    {
      LaidApart(was, Expand(cmd.system), image, p);
    }
    SamePatched(was, cmd.system, Update(was, cmd.system), doc,
      (p: Path) => cmd.img.Some? && cmd.img.value != "" ==> p[0] != "img");
  }

  lemma SamePatched(was: Actor, patch: Patch, doc: Actor, doc': Actor, counts: Path -> bool)
    requires Patched(was, patch, doc, p => true)
    requires forall p: Path | counts(p) :: GetAt(doc', p) == GetAt(doc, p)
    ensures Patched(was, patch, doc', counts)
  {
    hide GetAt, Apart, Misses, PrefixFree;
  }

  predicate SameNameAndType(cmd: Command, a: Actor)
    requires cmd.CreateActor?
  {
    Text.EqualFold(TextAt(a, "name"), cmd.name) && TextAt(a, "type") == cmd.actorType
  }

  lemma {:induction false} ActorFound(actors: Docs<Actor>, cmd: Command)
    requires cmd.CreateActor?
    ensures var test := (a: Actor) => SameNameAndType(cmd, a);
      match Find(actors, SameActor(cmd.name, cmd.actorType))
      case None => forall i | 0 <= i < |actors| :: !test(actors[i].1)
      case Some(id) => exists i :: FirstAt(actors, test, i) && actors[i].0 == id
  {
    var found := Find(actors, SameActor(cmd.name, cmd.actorType));
    forall a: Actor ensures SameActor(cmd.name, cmd.actorType)(a) == SameNameAndType(cmd, a) {
      Text.LowerEqualIff(TextAt(a, "name"), cmd.name);
    }
    FindIs(actors, SameActor(cmd.name, cmd.actorType));
    if found.Some? {
      var i :| FirstAt(actors, SameActor(cmd.name, cmd.actorType), i) && actors[i].0 == found.value;
      assert FirstAt(actors, (a: Actor) => SameNameAndType(cmd, a), i);
    }
  }

  /** The document that the reply names, and every other one as before. */
  ghost predicate ActorDone(actors: Docs<Actor>, actors': Docs<Actor>, cmd: Command, newId: string, body: Body)
    requires cmd.CreateActor?
  {
    body.Created?
    && var id := body.id;
       && OnlyAt(actors, actors', id) && Has(actors', id) && body.docName == TextAt(Get(actors', id), "name")
       && if exists i | 0 <= i < |actors| :: SameNameAndType(cmd, actors[i].1)
          then (exists i :: FirstAt(actors, (a: Actor) => SameNameAndType(cmd, a), i) && actors[i].0 == id)
            && Has(actors, id) && ActorSynced(cmd, Get(actors, id), Get(actors', id))
          else id == newId && ActorNew(cmd, Get(actors', id))
  }

  /** The oldest actor of that name, whatever its case, and of that type is returned, patched; where there is none, a
      new one is. The reply has the name that the actor has then. Nothing else changes. */
  lemma {:induction false} ActorCreated(w: World, cmd: Command, luck: Luck)
    requires cmd.CreateActor? && Fresh(w, luck.newId)
    ensures var (w', r) := Exec(w, cmd, luck);
      r.Success? && w' == w.(actors := w'.actors) && ActorDone(w.actors, w'.actors, cmd, luck.newId, r.body)
  {
    hide ActorDone, Expand, SameActor, TextAt;
    var image := if cmd.img.Some? && cmd.img.value != "" then map["img" := Atom(cmd.img.value)] else map[];
    match Find(w.actors, SameActor(cmd.name, cmd.actorType)) {
      case None =>
        var base := map["name" := Atom(cmd.name), "type" := Atom(cmd.actorType)] + image;
        forall k: string {
          TopLevelIs(cmd, k);
        }
        NewActorIs(cmd, base);
        NewActorDone(w.actors, cmd, luck.newId, Dict(base + Expand(cmd.system)));
      case Some(id) =>
        SyncedActorIs(cmd, Get(w.actors, id));
        var doc: Actor := Merge(Get(w.actors, id), Dict(Expand(cmd.system) + image));
        OldActorDone(w.actors, cmd, luck.newId, id, doc);
    }
  }

  lemma {:induction false} NewActorDone(actors: Docs<Actor>, cmd: Command, newId: string, doc: Actor)
    requires cmd.CreateActor? && !Has(actors, newId) && ActorNew(cmd, doc)
    requires Find(actors, SameActor(cmd.name, cmd.actorType)).None?
    ensures ActorDone(actors, actors + [(newId, doc)], cmd, newId, Created(newId, TextAt(doc, "name")))
  {
    ActorFound(actors, cmd);
    OnlyAppended(actors, newId, doc);
    hide ActorNew, SameNameAndType, OnlyAt;
  }

  lemma {:induction false} OldActorDone(actors: Docs<Actor>, cmd: Command, newId: string, id: string, doc: Actor)
    requires cmd.CreateActor? && Find(actors, SameActor(cmd.name, cmd.actorType)) == Some(id)
    requires ActorSynced(cmd, Get(actors, id), doc)
    ensures ActorDone(actors, Set(actors, id, doc), cmd, newId, Created(id, TextAt(doc, "name")))
  {
    ActorFound(actors, cmd);
    OnlySet(actors, id, doc);
    hide ActorSynced, SameNameAndType, OnlyAt;
  }

  /** An update succeeds exactly where the actor is found, and patches this actor only. */
  lemma {:induction false} ActorUpdated(w: World, cmd: Command, luck: Luck)
    requires cmd.UpdateActor?
    ensures var (w', r) := Exec(w, cmd, luck);
      match ResolveActor(w, cmd.actor)
      case None => r == Failure && w' == w
      case Some(id) =>
        && r == Success(Plain) && w' == w.(actors := w'.actors)
        && OnlyAt(w.actors, w'.actors, id) && Has(w'.actors, id)
        && Patched(Get(w.actors, id), cmd.patch, Get(w'.actors, id), p => true)
  {
    if id :| ResolveActor(w, cmd.actor) == Some(id) {
      UpdateIs(Get(w.actors, id), cmd.patch, p => true);
      var doc: Actor := Update(Get(w.actors, id), cmd.patch);
      OnlySet(w.actors, id, doc);
    }
  }

  // ---- Deletions ----------------------------------------------------------------------------------------------

  /** The first document of that id is gone, if there was one. */
  ghost predicate Without<T>(docs: Docs<T>, id: string, docs': Docs<T>) {
    if exists i | 0 <= i < |docs| :: docs[i].0 == id
    then exists i | 0 <= i < |docs| ::
      docs[i].0 == id && (forall j | 0 <= j < i :: docs[j].0 != id) && docs' == docs[..i] + docs[i + 1..]
    else docs' == docs
  }

  lemma DeletedIs<T>(docs: Docs<T>, id: string)
    ensures Without(docs, id, if Has(docs, id) then Delete(docs, id) else docs)
  {
    if Has(docs, id) {
      assert docs[IndexOf(docs, id)].0 == id;
    }
  }

  /** A deletion takes away just the document it names, an actor also by its name, and succeeds also where there is
      nothing to delete, save for a token whose scene is not found. A scene that goes is no longer active nor on the
      canvas. */
  lemma {:induction false} Deleted(w: World, cmd: Command, luck: Luck)
    ensures var (w', r) := Exec(w, cmd, luck);
      match cmd
      case DeleteToken(sceneId, id) =>
        var at := ResolveScene(w, Some(sceneId));
        if at.None? || !Has(w.scenes, at.value) then r == Failure && w' == w
        else r == Success(Plain) && OnlyTokens(w, w', at.value) && Without(SceneTokens(w, at), id, SceneTokens(w', at))
      case DeleteActor(ref) =>
        var found := ResolveActor(w, ref);
        && r == Success(Plain) && w' == w.(actors := w'.actors)
        && (if found.Some? then Without(w.actors, found.value, w'.actors) else w' == w)
      case DeleteScene(id) =>
        && r == Success(Plain) && w'.actors == w.actors && Without(w.scenes, id, w'.scenes)
        && (if Has(w.scenes, id) && w.active == Some(id) then w'.active.None? else w'.active == w.active)
        && (if Has(w.scenes, id) && w.current == Some(id) then w'.current.None? else w'.current == w.current)
      case _ => true
  {
    match cmd {
      case DeleteToken(sceneId, id) =>
        var at := ResolveScene(w, Some(sceneId));
        if at.Some? && Has(w.scenes, at.value) {
          var tokens := SceneTokens(w, at);
          DeletedIs(tokens, id);
          TokensWritten(w, at.value, tokens);
          if Has(tokens, id) {
            TokensWritten(w, at.value, Delete(tokens, id));
          } else {
            SetTwice(w.scenes, at.value, Get(w.scenes, at.value), Get(w.scenes, at.value));
          }
        }
      case DeleteActor(ref) =>
        if id :| ResolveActor(w, ref) == Some(id) {
          DeletedIs(w.actors, id);
        }
      case DeleteScene(id) => DeletedIs(w.scenes, id);
      case _ =>
    }
  }
}

/** The Foundry world, and what each command of the module's dispatcher does to it. */
module World {
  import opened Wrappers
  import opened Trees
  import opened Dotted
  import opened Commands
  import Text

  // ---- Document collections, in creation order -------------------------------------------

  type Docs<T> = seq<(string, T)>

  /** The position of the first document with this id; the length when there is none. */
  function IndexOf<T>(docs: Docs<T>, id: string): (i: nat)
    ensures i <= |docs|
    ensures i < |docs| ==> docs[i].0 == id
    ensures forall j | 0 <= j < i :: docs[j].0 != id
  {
    if docs == [] then 0 else if docs[0].0 == id then 0 else 1 + IndexOf(docs[1..], id)
  }

  predicate Has<T>(docs: Docs<T>, id: string) {
    IndexOf(docs, id) < |docs|
  }

  function Get<T>(docs: Docs<T>, id: string): T
    requires Has(docs, id)
  {
    docs[IndexOf(docs, id)].1
  }

  function Set<T>(docs: Docs<T>, id: string, doc: T): Docs<T>
    requires Has(docs, id)
  {
    docs[IndexOf(docs, id) := (id, doc)]
  }

  function Delete<T>(docs: Docs<T>, id: string): Docs<T>
    requires Has(docs, id)
  {
    docs[..IndexOf(docs, id)] + docs[IndexOf(docs, id) + 1..]
  }

  /** `collection.find`: the id of the first document that passes. */
  function Find<T>(docs: Docs<T>, test: T -> bool): (id: Option<string>)
    ensures id.Some? ==> Has(docs, id.value)
  {
    if docs == [] then None
    else if test(docs[0].1) then Some(docs[0].0)
    else
      match Find(docs[1..], test)
      case None => None
      case Some(id) => Some(id)
  }

  lemma IndexIs<T>(docs: Docs<T>, id: string, i: nat)
    requires i <= |docs| && (i < |docs| ==> docs[i].0 == id) && forall j | 0 <= j < i :: docs[j].0 != id
    ensures IndexOf(docs, id) == i
  {
  }

  lemma DeleteAppended<T>(docs: Docs<T>, id: string, doc: T)
    requires !Has(docs, id)
    ensures Has(docs + [(id, doc)], id) && Delete(docs + [(id, doc)], id) == docs
  {
    IndexIs(docs + [(id, doc)], id, |docs|);
  }

  lemma HasAppended<T>(docs: Docs<T>, id: string, doc: T)
    requires !Has(docs, id)
    ensures forall other :: Has(docs + [(id, doc)], other) <==> Has(docs, other) || other == id
    ensures forall other | Has(docs, other) :: Get(docs + [(id, doc)], other) == Get(docs, other)
    ensures Get(docs + [(id, doc)], id) == doc
  {
    forall other
      ensures IndexOf(docs + [(id, doc)], other) ==
        if Has(docs, other) || other == id then IndexOf(docs, other) else |docs| + 1
    {
      IndexIs(docs + [(id, doc)], other, if Has(docs, other) || other == id then IndexOf(docs, other) else |docs| + 1);
    }
  }

  lemma SetElsewhere<T>(docs: Docs<T>, id: string, doc: T, other: string)
    requires Has(docs, id) && other != id
    ensures Has(Set(docs, id, doc), other) <==> Has(docs, other)
    ensures Has(docs, other) ==> Get(Set(docs, id, doc), other) == Get(docs, other)
  {
    IndexIs(Set(docs, id, doc), other, IndexOf(docs, other));
  }

  lemma SetTwice<T>(docs: Docs<T>, id: string, doc: T, doc': T)
    requires Has(docs, id)
    ensures Has(Set(docs, id, doc), id) && Get(Set(docs, id, doc), id) == doc
    ensures Set(Set(docs, id, doc), id, doc') == Set(docs, id, doc')
    ensures Set(docs, id, Get(docs, id)) == docs
    ensures forall other :: Has(Set(docs, id, doc), other) <==> Has(docs, other)
  {
    IndexIs(Set(docs, id, doc), id, IndexOf(docs, id));
    forall other
      ensures Has(Set(docs, id, doc), other) <==> Has(docs, other)
    {
      IndexIs(Set(docs, id, doc), other, IndexOf(docs, other));
    }
  }

  // ---- The world ------------------------------------------------------------------------------

  datatype Token = Token(name: string, actorId: string, x: int, y: int, playable: bool)

  datatype Scene = Scene(name: string, width: int, height: int, grid: int, tokens: Docs<Token>)

  type Actor = t: Tree | t.Dict? witness Dict(map[])

  /** `active` is the scene shown to everyone, `current` the one on the executing browser's canvas. */
  datatype World = World(scenes: Docs<Scene>, actors: Docs<Actor>, active: Option<string>, current: Option<string>)

  function TextAt(doc: Actor, key: string): string {
    if key in doc.props && doc.props[key].Atom? then doc.props[key].text else ""
  }

  /** `resolveScene`: nothing given means the current scene; then by id; then by name, ignoring case. */
  function ResolveScene(w: World, ref: Option<string>): (id: Option<string>) {
    if ref.None? || ref.value == "" then w.current
    else if Has(w.scenes, ref.value) then ref
    else Find(w.scenes, (s: Scene) => Text.Lower(s.name) == Text.Lower(ref.value))
  }

  function ResolveActor(w: World, ref: string): (id: Option<string>)
    ensures id.Some? ==> Has(w.actors, id.value)
  {
    if ref == "" then None
    else if Has(w.actors, ref) then Some(ref)
    else Find(w.actors, (a: Actor) => Text.Lower(TextAt(a, "name")) == Text.Lower(ref))
  }

  // ---- Replies ------------------------------------------------------------------------------------

  datatype Body =
    | Plain
    | Created(id: string, docName: string)
    | TokenRead(at: Option<(int, int)>)
    | ActorRead(doc: Option<Tree>)
    | SceneRead(sceneId: Option<string>)

  datatype Response = Failure | Success(body: Body)

  /** What the environment supplies to one execution: the id of a created document, and, for the
      commands whose effect is not modelled, whether they succeed and the world they leave. */
  datatype Luck = Luck(newId: string, succeeds: bool, after: World)

  /** The fields `readActor` sends back. */
  const READ_KEYS: set<string> := {"name", "type", "img", "system"}

  function ActorSnapshot(id: string, doc: Actor): Tree {
    var read := map k | k in doc.props && k in READ_KEYS :: doc.props[k];
    Dict(map["id" := Atom(id), "system" := Null] + read)
  }

  function SceneTokens(w: World, scene: Option<string>): Docs<Token> {
    if scene.Some? && Has(w.scenes, scene.value) then Get(w.scenes, scene.value).tokens else []
  }

  function WithTokens(w: World, scene: string, tokens: Docs<Token>): World
    requires Has(w.scenes, scene)
  {
    w.(scenes := Set(w.scenes, scene, Get(w.scenes, scene).(tokens := tokens)))
  }

  // ---- The command handlers ---------------------------------------------------------------------

  function ExecMoveToken(w: World, token: string, x: int, y: int): (World, Response) {
    var tokens := SceneTokens(w, w.current);
    if w.current.None? || !Has(w.scenes, w.current.value) || !Has(tokens, token) then (w, Failure)
    else (WithTokens(w, w.current.value, Set(tokens, token, Get(tokens, token).(x := x, y := y))), Success(Plain))
  }

  function ExecActivate(w: World, sceneId: string): (World, Response) {
    var found := if Has(w.scenes, sceneId) then Some(sceneId) else Find(w.scenes, (s: Scene) => s.name == sceneId);
    if found.None? then (w, Failure) else (w.(active := found, current := found), Success(Plain))
  }

  function ExecUpdateActor(w: World, actor: string, patch: Patch): (World, Response) {
    var found := ResolveActor(w, actor);
    if found.None? then (w, Failure)
    else (w.(actors := Set(w.actors, found.value, Update(Get(w.actors, found.value), patch))), Success(Plain))
  }

  /** `createScene` returns, and resizes, a scene that already has the name. */
  function ExecCreateScene(w: World, name: string, width: int, height: int, grid: int, newId: string)
    : (World, Response)
  {
    match Find(w.scenes, (s: Scene) => s.name == name)
    case Some(id) =>
      var scene := Get(w.scenes, id).(width := width, height := height, grid := grid);
      (w.(scenes := Set(w.scenes, id, scene)), Success(Created(id, scene.name)))
    case None =>
      (w.(scenes := w.scenes + [(newId, Scene(name, width, height, grid, []))]), Success(Created(newId, name)))
  }

  function SameActor(name: string, actorType: string): Actor -> bool {
    (a: Actor) => Text.Lower(TextAt(a, "name")) == Text.Lower(name) && TextAt(a, "type") == actorType
  }

  /** `createActor` returns, and re-synchronises, an actor of that name and type. */
  function ExecCreateActor(w: World, name: string, actorType: string, system: Patch, img: Option<string>, newId: string)
    : (World, Response)
  {
    var image := if img.Some? && img.value != "" then map["img" := Atom(img.value)] else map[];
    match Find(w.actors, SameActor(name, actorType))
    case Some(id) =>
      var doc: Actor := Merge(Get(w.actors, id), Dict(Expand(system) + image));
      (w.(actors := Set(w.actors, id, doc)), Success(Created(id, TextAt(doc, "name"))))
    case None =>
      var doc: Actor := Dict(map["name" := Atom(name), "type" := Atom(actorType)] + image + Expand(system));
      (w.(actors := w.actors + [(newId, doc)]), Success(Created(newId, TextAt(doc, "name"))))
  }

  function SameToken(actorId: string, name: Option<string>): Token -> bool {
    (t: Token) => t.actorId == actorId || (name.Some? && name.value != ""
      && Text.Lower(t.name) == Text.Lower(name.value))
  }

  /** `spawnToken` returns, and makes playable, a token of that actor or name on the scene. */
  function ExecSpawn(w: World, sceneId: string, actor: string, x: int, y: int, name: Option<string>, newId: string)
    : (World, Response)
  {
    var scene := ResolveScene(w, Some(sceneId));
    var found := ResolveActor(w, actor);
    if scene.None? || !Has(w.scenes, scene.value) || found.None? then (w, Failure)
    else
      var doc: Actor := Get(w.actors, found.value);
      var tokens := SceneTokens(w, scene);
      var isCharacter := TextAt(doc, "type") == "character";
      match Find(tokens, SameToken(found.value, name))
      case Some(id) =>
        var token := Get(tokens, id);
        var token' := if isCharacter then token.(playable := true) else token;
        (WithTokens(w, scene.value, Set(tokens, id, token')), Success(Created(id, "")))
      case None =>
        var token := Token(if name.Some? then name.value else TextAt(doc, "name"), found.value, x, y, isCharacter);
        (WithTokens(w, scene.value, tokens + [(newId, token)]), Success(Created(newId, "")))
  }

  function ExecDeleteToken(w: World, sceneId: string, token: string): (World, Response) {
    var scene := ResolveScene(w, Some(sceneId));
    if scene.None? || !Has(w.scenes, scene.value) then (w, Failure)
    else
      var tokens := SceneTokens(w, scene);
      if !Has(tokens, token) then (w, Success(Plain))
      else (WithTokens(w, scene.value, Delete(tokens, token)), Success(Plain))
  }

  function ExecDeleteActor(w: World, actor: string): (World, Response) {
    match ResolveActor(w, actor)
    case None => (w, Success(Plain))
    case Some(id) => (w.(actors := Delete(w.actors, id)), Success(Plain))
  }

  function ExecDeleteScene(w: World, sceneId: string): (World, Response) {
    if !Has(w.scenes, sceneId) then (w, Success(Plain))
    else
      var scenes := Delete(w.scenes, sceneId);
      (World(scenes, w.actors,
         if w.active == Some(sceneId) then None else w.active,
         if w.current == Some(sceneId) then None else w.current), Success(Plain))
  }

  function ExecReadToken(w: World, scene: Option<string>, token: string): Response {
    var found := ResolveScene(w, scene);
    if found.None? || !Has(w.scenes, found.value) then Failure
    else
      var tokens := SceneTokens(w, found);
      Success(TokenRead(if Has(tokens, token) then Some((Get(tokens, token).x, Get(tokens, token).y)) else None))
  }

  function ExecReadActor(w: World, actor: string): Response {
    match ResolveActor(w, actor)
    case None => Success(ActorRead(None))
    case Some(id) => Success(ActorRead(Some(ActorSnapshot(id, Get(w.actors, id)))))
  }

  function ExecReadActive(w: World): Response {
    Success(SceneRead(if w.active.Some? then w.active else w.current))
  }

  /** `_dispatchCommand`. */
  function Exec(w: World, cmd: Command, luck: Luck): (World, Response) {
    match cmd
    case MoveToken(token, x, y, _) => ExecMoveToken(w, token, x, y)
    case ActivateScene(sceneId) => ExecActivate(w, sceneId)
    case UpdateActor(actor, patch) => ExecUpdateActor(w, actor, patch)
    case CreateScene(name, width, height, grid) => ExecCreateScene(w, name, width, height, grid, luck.newId)
    case CreateActor(name, actorType, system, img, _) => ExecCreateActor(w, name, actorType, system, img, luck.newId)
    case SpawnToken(sceneId, actor, x, y, name) => ExecSpawn(w, sceneId, actor, x, y, name, luck.newId)
    case DeleteToken(sceneId, token) => ExecDeleteToken(w, sceneId, token)
    case DeleteActor(actor) => ExecDeleteActor(w, actor)
    case DeleteScene(sceneId) => ExecDeleteScene(w, sceneId)
    case ReadToken(scene, token) => (w, ExecReadToken(w, scene, token))
    case ReadActor(actor) => (w, ExecReadActor(w, actor))
    case ReadActiveScene => (w, ExecReadActive(w))
    case HighlightObject(_) => (w, if luck.succeeds then Success(Plain) else Failure)
    // These have handlers whose effect, also when they fail, is left to the environment.
    case MoveActorTo(_, _, _, _, _, _, _) => (luck.after, if luck.succeeds then Success(Plain) else Failure)
    case CreateNote(_, _, _, _) => (luck.after, if luck.succeeds then Success(Plain) else Failure)
    case ApplyDamage(_, _) => (luck.after, if luck.succeeds then Success(Plain) else Failure)
    // "unsupported_command"
    case CreateJournal(_) => (w, Failure)
    case UpdateJournal(_, _, _) => (w, Failure)
    case GiveItem(_, _, _) => (w, Failure)
  }

  predicate LeftToEnvironment(cmd: Command) {
    cmd.MoveActorTo? || cmd.CreateNote? || cmd.ApplyDamage?
  }

  /** A modelled command that reports failure has changed nothing. */
  lemma FailureChangesNothing(w: World, cmd: Command, luck: Luck)
    requires !LeftToEnvironment(cmd)
    ensures Exec(w, cmd, luck).1.Failure? ==> Exec(w, cmd, luck).0 == w
  {
  }

  // ---- Well-formed worlds ------------------------------------------------------------------------

  /** Document ids are not empty, no token stands in two scenes, and the scenes on show exist. */
  ghost predicate Proper(w: World) {
    && (forall id | Has(w.scenes, id) || Has(w.actors, id) :: id != "")
    && (forall s, id | Has(w.scenes, s) && Has(Get(w.scenes, s).tokens, id) :: id != "")
    && (w.active.Some? ==> Has(w.scenes, w.active.value))
    && (w.current.Some? ==> Has(w.scenes, w.current.value))
    && (forall s, s', token | Has(w.scenes, s) && Has(w.scenes, s') && Has(Get(w.scenes, s).tokens, token)
      && Has(Get(w.scenes, s').tokens, token) :: s == s')
  }

  /** An id that no document of the world bears. */
  ghost predicate Fresh(w: World, id: string) {
    && id != "" && !Has(w.scenes, id) && !Has(w.actors, id)
    && (forall s | Has(w.scenes, s) :: !Has(Get(w.scenes, s).tokens, id))
  }

  lemma ProperTokens(w: World, s: string, tokens: Docs<Token>, newId: string)
    requires Proper(w) && Has(w.scenes, s)
    requires forall id | Has(tokens, id) :: Has(Get(w.scenes, s).tokens, id) || (id == newId && Fresh(w, newId))
    ensures Proper(WithTokens(w, s, tokens))
  {
    var w' := WithTokens(w, s, tokens);
    var scene := Get(w.scenes, s).(tokens := tokens);
    SetTwice(w.scenes, s, scene, scene);
    forall other | Has(w'.scenes, other)
      ensures Has(w.scenes, other) && Get(w'.scenes, other).tokens == if other == s then tokens
        else Get(w.scenes, other).tokens
    {
      if other != s {
        SetElsewhere(w.scenes, s, scene, other);
      }
    }
  }

  /** Every modelled command that does not delete keeps the world proper, whether what it creates is new or there
      before. */
  lemma ProperKept(w: World, cmd: Command, luck: Luck)
    requires Proper(w) && Fresh(w, luck.newId)
    requires !cmd.DeleteToken? && !cmd.DeleteActor? && !cmd.DeleteScene?
    requires !LeftToEnvironment(cmd)
    ensures Proper(Exec(w, cmd, luck).0)
  {
    var (w', r) := Exec(w, cmd, luck);
    if r.Success? {
      match cmd {
        case MoveToken(token, x, y, _) => ProperMove(w, token, x, y, luck.newId);
        case UpdateActor(actor, patch) => ProperUpdate(w, actor, patch);
        case CreateScene(name, width, height, grid) => ProperCreateScene(w, name, width, height, grid, luck.newId);
        case CreateActor(name, actorType, system, img, _) =>
          ProperCreateActor(w, name, actorType, system, img, luck.newId);
        case SpawnToken(sceneId, actor, x, y, name) => ProperSpawn(w, sceneId, actor, x, y, name, luck.newId);
        case _ =>
      }
    }
  }

  lemma ProperMove(w: World, token: string, x: int, y: int, newId: string)
    requires Proper(w) && Fresh(w, newId)
    ensures Proper(ExecMoveToken(w, token, x, y).0)
  {
    if ExecMoveToken(w, token, x, y).1.Success? {
      var tokens := SceneTokens(w, w.current);
      var moved := Get(tokens, token).(x := x, y := y);
      SetTwice(tokens, token, moved, moved);
      ProperTokens(w, w.current.value, Set(tokens, token, moved), newId);
    }
  }

  lemma ProperUpdate(w: World, actor: string, patch: Patch)
    requires Proper(w)
    ensures Proper(ExecUpdateActor(w, actor, patch).0)
  {
    if id :| ResolveActor(w, actor) == Some(id) {
      var doc: Actor := Update(Get(w.actors, id), patch);
      SetTwice(w.actors, id, doc, doc);
    }
  }

  lemma ProperCreateScene(w: World, name: string, width: int, height: int, grid: int, newId: string)
    requires Proper(w) && Fresh(w, newId)
    ensures Proper(ExecCreateScene(w, name, width, height, grid, newId).0)
  {
    var w' := ExecCreateScene(w, name, width, height, grid, newId).0;
    match Find(w.scenes, (s: Scene) => s.name == name) {
      case None =>
        HasAppended(w.scenes, newId, Scene(name, width, height, grid, []));
      case Some(id) =>
        var scene := Get(w.scenes, id).(width := width, height := height, grid := grid);
        SetTwice(w.scenes, id, scene, scene);
        forall other | Has(w'.scenes, other)
          ensures Get(w'.scenes, other).tokens == Get(w.scenes, other).tokens
        {
          if other != id {
            SetElsewhere(w.scenes, id, scene, other);
          }
        }
    }
  }

  lemma ProperCreateActor(w: World, name: string, actorType: string, system: Patch, img: Option<string>, newId: string)
    requires Proper(w) && Fresh(w, newId)
    ensures Proper(ExecCreateActor(w, name, actorType, system, img, newId).0)
  {
    var w' := ExecCreateActor(w, name, actorType, system, img, newId).0;
    match Find(w.actors, SameActor(name, actorType)) {
      case None =>
        HasAppended(w.actors, newId, w'.actors[|w.actors|].1);
      case Some(id) =>
        var doc: Actor := w'.actors[IndexOf(w.actors, id)].1;
        SetTwice(w.actors, id, doc, doc);
    }
  }

  lemma ProperSpawn(w: World, sceneId: string, actor: string, x: int, y: int, name: Option<string>, newId: string)
    requires Proper(w) && Fresh(w, newId)
    ensures Proper(ExecSpawn(w, sceneId, actor, x, y, name, newId).0)
  {
    var scene, found := ResolveScene(w, Some(sceneId)), ResolveActor(w, actor);
    if scene.Some? && Has(w.scenes, scene.value) && found.Some? {
      var tokens := SceneTokens(w, scene);
      match Find(tokens, SameToken(found.value, name)) {
        case None =>
          var token := Token(
            if name.Some? then name.value else TextAt(Get(w.actors, found.value), "name"), found.value, x, y,
            TextAt(Get(w.actors, found.value), "type") == "character");
          HasAppended(tokens, newId, token);
          ProperTokens(w, scene.value, tokens + [(newId, token)], newId);
        case Some(id) =>
          var token := Get(tokens, id);
          var token' := if TextAt(Get(w.actors, found.value), "type") == "character" then token.(playable := true)
            else token;
          SetTwice(tokens, id, token', token');
          ProperTokens(w, scene.value, Set(tokens, id, token'), newId);
      }
    }
  }
}

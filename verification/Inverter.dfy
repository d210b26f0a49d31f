/** `CommandInverter`: what is read before a command, which command takes it back, and when that restores the world. */
module Inverter {
  import opened Wrappers
  import opened Trees
  import opened Paths
  import opened Dotted
  import opened Commands
  import opened World
  import opened Registry

  datatype Snap =
    | NoSnap
    | EmptySnap
    | TokenSnap(prevAt: Option<(int, int)>, scene: Option<string>)
    | ActorSnap(prevValues: Patch)
    | SceneSnap(prevScene: Option<string>)

  /** The scene that the token snapshot is taken from: the command's, or the registry's for that token. */
  function SnapshotScene(reg: Reg, token: string, scene: Option<string>): Option<string> {
    if scene.Some? && scene.value != "" then scene
    else if (TokenKind, token) in reg.entries then reg.entries[(TokenKind, token)].scene
    else None
  }

  /** `snapshot`; when the read is not answered, or fails, the earlier state is simply unknown. */
  function TakeSnapshot(w: World, reg: Reg, cmd: Command, answered: bool): Snap {
    match cmd
    case MoveToken(token, _, _, given) =>
      var scene := SnapshotScene(reg, token, given);
      var read := ExecReadToken(w, scene, token);
      TokenSnap(if answered && read.Success? then read.body.at else None, scene)
    case UpdateActor(actor, patch) =>
      var read := ExecReadActor(w, actor);
      ActorSnap(if answered && read.body.doc.Some? then Previous(read.body.doc.value, patch) else [])
    case ActivateScene(_) =>
      SceneSnap(if answered then ExecReadActive(w).body.sceneId else None)
    case SpawnToken(_, _, _, _, _) => EmptySnap
    case CreateActor(_, _, _, _, _) => EmptySnap
    case CreateScene(_, _, _, _) => EmptySnap
    case _ => NoSnap
  }

  function Inverse(cmd: Command, snap: Snap, body: Body): Option<Command> {
    match cmd
    case MoveToken(token, _, _, scene) =>
      if snap.TokenSnap? && snap.prevAt.Some? then
        Some(MoveToken(token, snap.prevAt.value.0, snap.prevAt.value.1,
          if snap.scene.Some? && snap.scene.value != "" then snap.scene else scene))
      else None
    case UpdateActor(actor, _) =>
      if snap.ActorSnap? && snap.prevValues != [] then Some(UpdateActor(actor, snap.prevValues)) else None
    case ActivateScene(sceneId) =>
      if snap.SceneSnap? && snap.prevScene.Some? && snap.prevScene.value != "" && snap.prevScene.value != sceneId then
        Some(ActivateScene(snap.prevScene.value))
      else None
    case SpawnToken(sceneId, _, _, _, _) =>
      if body.Created? && body.id != "" then Some(DeleteToken(sceneId, body.id)) else None
    case CreateActor(_, _, _, _, _) =>
      if body.Created? && body.id != "" then Some(DeleteActor(body.id)) else None
    case CreateScene(_, _, _, _) =>
      if body.Created? && body.id != "" then Some(DeleteScene(body.id)) else None
    case _ => None
  }

  /** The world after a command's inverse has run right after it. */
  function TakenBack(w: World, cmd: Command, snap: Snap, body: Body, luck: Luck): World {
    match Inverse(cmd, snap, body)
    case None => w
    case Some(inverse) => Exec(w, inverse, luck).0
  }

  // ---- When one step is undone ---------------------------------------------------------------

  /** Exactly the cases in which a step that succeeded, with its snapshot answered, is taken back in full. */
  ghost predicate Undoable(w: World, reg: Reg, cmd: Command, luck: Luck) {
    match cmd
    case MoveToken(token, x, y, given) =>
      // the snapshot was taken where the move takes place, or the token does not move
      var here := SceneTokens(w, w.current);
      || ResolveScene(w, SnapshotScene(reg, token, given)) == w.current
      || (Has(here, token) && Get(here, token).x == x && Get(here, token).y == y)
    case ActivateScene(_) =>
      w.active.Some? && w.active == w.current
    case UpdateActor(actor, patch) =>
      forall i | 0 <= i < |patch| :: Has(w.actors, actor) && ActorRestorable(actor, Get(w.actors, actor), patch[i])
    case CreateScene(name, _, _, _) =>
      Find(w.scenes, (s: Scene) => s.name == name).None?
    case CreateActor(name, actorType, _, _, _) =>
      Find(w.actors, SameActor(name, actorType)).None?
    case SpawnToken(sceneId, actor, _, _, name) =>
      var scene, found := ResolveScene(w, Some(sceneId)), ResolveActor(w, actor);
      found.Some? && Find(SceneTokens(w, scene), SameToken(found.value, name)).None?
    // without an inverse: a deletion must find nothing to delete, and the environment must change nothing
    case DeleteToken(sceneId, token) =>
      !Has(SceneTokens(w, ResolveScene(w, Some(sceneId))), token)
    case DeleteActor(actor) =>
      ResolveActor(w, actor).None?
    case DeleteScene(sceneId) =>
      !Has(w.scenes, sceneId)
    case MoveActorTo(_, _, _, _, _, _, _) => luck.after == w
    case CreateNote(_, _, _, _) => luck.after == w
    case ApplyDamage(_, _) => luck.after == w
    case _ => true
  }

  /** The key leads to a value and the patch brings no new key below it; where `read_actor` does not send the key back,
      the value is what the missing key reads as. */
  predicate ActorRestorable(id: string, doc: Actor, entry: (string, Tree)) {
    if PathOf(entry.0)[0] in READ_KEYS then Restorable(doc, entry)
    else GetAt(doc, PathOf(entry.0)) == Some(Unread(id, entry.0))
  }

  /** What a key that is not among the fields of an actor reads as in the snapshot. */
  function Unread(id: string, key: string): Tree {
    if key == "id" then Atom(id) else Null
  }

  /** An `update_actor` sent to an actor's id, with no key inside another. */
  ghost predicate Addressed(w: World, cmd: Command) {
    cmd.UpdateActor? ==>
      && Has(w.actors, cmd.actor) && cmd.actor != ""
      && PrefixFree(cmd.patch)
  }

  /** What was not read is not taken back: without an answer to the snapshot a move, an update and an activation have no
      inverse, while a creation has one all the same. */
  lemma {:induction false} UnreadHasNoInverse(w: World, reg: Reg, cmd: Command, body: Body)
    ensures var inverse := Inverse(cmd, TakeSnapshot(w, reg, cmd, false), body);
      inverse.Some? <==>
        (cmd.CreateScene? || cmd.CreateActor? || cmd.SpawnToken?) && body.Created? && body.id != ""
  {
    hide Previous, ExecReadActor, ExecReadToken, ExecReadActive;
  }

  lemma TokensTwice(w: World, s: string, tokens: Docs<Token>, tokens': Docs<Token>)
    requires Has(w.scenes, s)
    ensures Has(WithTokens(w, s, tokens).scenes, s) && SceneTokens(WithTokens(w, s, tokens), Some(s)) == tokens
    ensures WithTokens(WithTokens(w, s, tokens), s, tokens') == WithTokens(w, s, tokens')
    ensures WithTokens(w, s, SceneTokens(w, Some(s))) == w
  {
    var scene := Get(w.scenes, s);
    SetTwice(w.scenes, s, scene.(tokens := tokens), scene.(tokens := tokens'));
    assert scene.(tokens := tokens).(tokens := tokens') == scene.(tokens := tokens');
    assert scene.(tokens := scene.tokens) == scene;
  }

  lemma MoveTokenUndone(w: World, reg: Reg, token: string, x: int, y: int, given: Option<string>, luck: Luck)
    requires Proper(w) && Exec(w, MoveToken(token, x, y, given), luck).1.Success?
    ensures var cmd := MoveToken(token, x, y, given);
      var (w', r) := Exec(w, cmd, luck);
      TakenBack(w', cmd, TakeSnapshot(w, reg, cmd, true), r.body, luck) == w <==> Undoable(w, reg, cmd, luck)
  {
    hide ExecActivate, ExecUpdateActor, ExecCreateScene, ExecCreateActor, ExecSpawn, ExecReadActor, ExecReadActive;
    hide ExecDeleteToken, ExecDeleteActor, ExecDeleteScene, Previous, RestoredBy, ActorRestorable;
    var c, here := w.current.value, SceneTokens(w, w.current);
    var at := Get(here, token);
    var moved := Set(here, token, at.(x := x, y := y));
    var scene := SnapshotScene(reg, token, given);
    var read := ExecReadToken(w, scene, token);
    SetTwice(here, token, at.(x := x, y := y), at);
    TokensTwice(w, c, moved, here);
    if read.Success? && read.body.at.Some? {
      var s := ResolveScene(w, scene).value;
      assert Has(Get(w.scenes, s).tokens, token) && Has(Get(w.scenes, c).tokens, token);
      assert s == c;
      assert at.(x := x, y := y).(x := at.x, y := at.y) == at;
    } else {
      assert at.(x := at.x, y := at.y) == at;
      if WithTokens(w, c, moved) == w {
        assert SceneTokens(w, Some(c)) == moved;
      }
    }
  }

  lemma ActivateUndone(w: World, reg: Reg, sceneId: string, luck: Luck)
    requires Proper(w) && Exec(w, ActivateScene(sceneId), luck).1.Success?
    ensures var cmd := ActivateScene(sceneId);
      var (w', r) := Exec(w, cmd, luck);
      TakenBack(w', cmd, TakeSnapshot(w, reg, cmd, true), r.body, luck) == w <==> Undoable(w, reg, cmd, luck)
  {
  }

  /** What the `read_actor` snapshot holds under any key. */
  lemma SnapshotReads(id: string, doc: Actor, key: string)
    ensures DottedGet(ActorSnapshot(id, doc), key) ==
      if PathOf(key)[0] in READ_KEYS then DottedGet(doc, key) else Unread(id, key)
  {
    var read, path := ActorSnapshot(id, doc), PathOf(key);
    if path[0] in READ_KEYS {
      if path[0] in doc.props {
        assert read.props[path[0]] == doc.props[path[0]];
      } else if path[0] == "system" {
        assert GetAt(read, path) == GetAt(Null, path[1..]);
      } else {
        assert path[0] !in read.props;
      }
    } else if path[0] == "id" {
      assert GetAt(read, path) == GetAt(Atom(id), path[1..]);
      assert key == "id" <==> |path| == 1;
    } else {
      assert path[0] !in read.props;
    }
  }

  lemma {:induction false} UpdateActorUndone(w: World, actor: string, patch: Patch)
    requires Addressed(w, UpdateActor(actor, patch))
    ensures var (w', doc) := (ExecUpdateActor(w, actor, patch).0, Get(w.actors, actor));
      var previous := Previous(ActorSnapshot(actor, doc), patch);
      if patch == [] then w' == w
      else ExecUpdateActor(w', actor, previous).0 == w <==>
        forall i | 0 <= i < |patch| :: ActorRestorable(actor, doc, patch[i])
  {
    hide ActorRestorable, ActorSnapshot, Merge, Update, Set, PrefixFree, Previous, ExecUpdateActor;
    var doc: Actor := Get(w.actors, actor);
    var previous := Previous(ActorSnapshot(actor, doc), patch);
    ActorRestoredIff(actor, doc, patch);
    UpdatesWritten(w, actor, patch, previous);
    if patch == [] {
      EmptyUpdate(w, actor);
    }
  }

  lemma UpdatesWritten(w: World, actor: string, patch: Patch, back: Patch)
    requires Has(w.actors, actor) && actor != ""
    ensures var doc := Get(w.actors, actor);
      var w' := ExecUpdateActor(w, actor, patch).0;
      && w' == w.(actors := Set(w.actors, actor, Update(doc, patch)))
      && (ExecUpdateActor(w', actor, back).0 == w <==> Update(Update(doc, patch), back) == doc)
  {
    var doc: Actor := Get(w.actors, actor);
    var once: Actor := Update(doc, patch);
    var twice: Actor := Update(once, back);
    hide Update, Set;
    ActorWrittenTwice(w, actor, once, twice);
  }

  lemma EmptyUpdate(w: World, actor: string)
    requires Has(w.actors, actor) && actor != ""
    ensures ExecUpdateActor(w, actor, []).0 == w
  {
    var doc: Actor := Get(w.actors, actor);
    MergeIdentity(doc);
    assert Update(doc, []) == doc;
    ActorWrittenTwice(w, actor, doc, doc);
  }

  lemma {:induction false} ActorRestoredIff(id: string, doc: Actor, patch: Patch)
    requires PrefixFree(patch)
    ensures Update(Update(doc, patch), Previous(ActorSnapshot(id, doc), patch)) == doc <==>
      forall i | 0 <= i < |patch| :: ActorRestorable(id, doc, patch[i])
  {
    var previous := Previous(ActorSnapshot(id, doc), patch);
    UpdateBackIff(doc, patch, previous);
    forall i | 0 <= i < |patch|
      ensures RestoredBy(doc, patch[i], previous[i].1) <==> ActorRestorable(id, doc, patch[i])
    {
      SnapshotReads(id, doc, patch[i].0);
      if was :| GetAt(doc, PathOf(patch[i].0)) == Some(was) {
        MergeBack(was, patch[i].1);
      }
    }
  }

  lemma ActorWrittenTwice(w: World, id: string, doc: Actor, doc': Actor)
    requires Has(w.actors, id)
    ensures Has(Set(w.actors, id, doc), id) && Get(Set(w.actors, id, doc), id) == doc
    ensures Set(Set(w.actors, id, doc), id, doc') == Set(w.actors, id, doc')
    ensures Set(w.actors, id, doc') == w.actors <==> doc' == Get(w.actors, id)
  {
    SetTwice(w.actors, id, doc, doc');
    SetTwice(w.actors, id, doc', doc);
  }

  lemma CreateSceneUndone(w: World, reg: Reg, name: string, width: int, height: int, grid: int, luck: Luck)
    requires luck.newId != "" && !Has(w.scenes, luck.newId) && w.active != Some(luck.newId)
      && w.current != Some(luck.newId)
    requires forall id | Has(w.scenes, id) :: id != ""
    ensures var cmd := CreateScene(name, width, height, grid);
      var (w', r) := Exec(w, cmd, luck);
      r.Success? && (TakenBack(w', cmd, TakeSnapshot(w, reg, cmd, true), r.body, luck) == w <==>
        Undoable(w, reg, cmd, luck))
  {
    match Find(w.scenes, (s: Scene) => s.name == name) {
      case None => DeleteAppended(w.scenes, luck.newId, Scene(name, width, height, grid, []));
      case Some(id) => ResizedSceneDeleted(w, name, width, height, grid, luck.newId, id);
    }
  }

  lemma ResizedSceneDeleted(w: World, name: string, width: int, height: int, grid: int, newId: string, id: string)
    requires Find(w.scenes, (s: Scene) => s.name == name) == Some(id)
    ensures var (w', r) := ExecCreateScene(w, name, width, height, grid, newId);
      r.body.Created? && r.body.id == id && |ExecDeleteScene(w', id).0.scenes| == |w.scenes| - 1
  {
    var scene := Get(w.scenes, id).(width := width, height := height, grid := grid);
    SetTwice(w.scenes, id, scene, scene);
  }

  lemma {:induction false} CreateActorUndone(w: World, reg: Reg, name: string, actorType: string, system: Patch,
      img: Option<string>, aliases: seq<string>, luck: Luck)
    requires luck.newId != "" && !Has(w.actors, luck.newId)
    requires forall id | Has(w.actors, id) :: id != ""
    ensures var cmd := CreateActor(name, actorType, system, img, aliases);
      var (w', r) := Exec(w, cmd, luck);
      r.Success? && (TakenBack(w', cmd, TakeSnapshot(w, reg, cmd, true), r.body, luck) == w <==>
        Undoable(w, reg, cmd, luck))
  {
    CreateActorTakenBack(w, reg, CreateActor(name, actorType, system, img, aliases), luck);
    match Find(w.actors, SameActor(name, actorType)) {
      case None => NewActorDeleted(w, name, actorType, system, img, luck.newId);
      case Some(id) => SyncedActorDeleted(w, name, actorType, system, img, luck.newId, id);
    }
  }

  lemma CreateActorTakenBack(w: World, reg: Reg, cmd: Command, luck: Luck)
    requires cmd.CreateActor?
    ensures var (w', r) := ExecCreateActor(w, cmd.name, cmd.actorType, cmd.system, cmd.img, luck.newId);
      && Exec(w, cmd, luck) == (w', r) && r.Success? && r.body.Created?
      && (r.body.id != "" ==>
            TakenBack(w', cmd, TakeSnapshot(w, reg, cmd, true), r.body, luck) == ExecDeleteActor(w', r.body.id).0)
  {
    hide ExecDeleteActor, Previous, Expand, Merge, SameActor;
    assert TakeSnapshot(w, reg, cmd, true) == EmptySnap;
  }

  lemma NewActorDeleted(w: World, name: string, actorType: string, system: Patch, img: Option<string>, newId: string)
    requires newId != "" && !Has(w.actors, newId) && Find(w.actors, SameActor(name, actorType)).None?
    ensures var (w', r) := ExecCreateActor(w, name, actorType, system, img, newId);
      r.body.Created? && r.body.id == newId && ExecDeleteActor(w', newId).0 == w
  {
    var w' := ExecCreateActor(w, name, actorType, system, img, newId).0;
    var doc: Actor := w'.actors[|w.actors|].1;
    assert w'.actors == w.actors + [(newId, doc)];
    DeleteAppended(w.actors, newId, doc);
  }

  lemma SyncedActorDeleted(w: World, name: string, actorType: string, system: Patch, img: Option<string>,
      newId: string, id: string)
    requires Find(w.actors, SameActor(name, actorType)) == Some(id) && id != ""
    ensures var (w', r) := ExecCreateActor(w, name, actorType, system, img, newId);
      r.body.Created? && r.body.id == id && |ExecDeleteActor(w', id).0.actors| == |w.actors| - 1
  {
    var w' := ExecCreateActor(w, name, actorType, system, img, newId).0;
    var doc: Actor := w'.actors[IndexOf(w.actors, id)].1;
    assert w'.actors == Set(w.actors, id, doc);
    SetTwice(w.actors, id, doc, doc);
  }

  lemma {:induction false} NamesKept(scenes: Docs<Scene>, id: string, tokens: Docs<Token>, test: Scene -> bool)
    requires Has(scenes, id)
    requires forall s: Scene, t: Docs<Token> :: test(s) == test(s.(tokens := t))
    ensures Find(Set(scenes, id, Get(scenes, id).(tokens := tokens)), test) == Find(scenes, test)
  {
    if scenes[0].0 != id {
      NamesKept(scenes[1..], id, tokens, test);
      assert Set(scenes, id, Get(scenes, id).(tokens := tokens))[1..] ==
        Set(scenes[1..], id, Get(scenes[1..], id).(tokens := tokens));
    } else {
      assert Set(scenes, id, Get(scenes, id).(tokens := tokens))[1..] == scenes[1..];
    }
  }

  /** Changing a scene's tokens does not change how scenes are resolved. */
  lemma ResolvesAsBefore(w: World, s: string, tokens: Docs<Token>, ref: string)
    requires Has(w.scenes, s)
    ensures ResolveScene(WithTokens(w, s, tokens), Some(ref)) == ResolveScene(w, Some(ref))
  {
    var scene := Get(w.scenes, s);
    SetTwice(w.scenes, s, scene.(tokens := tokens), scene);
    NamesKept(w.scenes, s, tokens, (sc: Scene) => Text.Lower(sc.name) == Text.Lower(ref));
  }

  lemma SpawnUndone(w: World, sceneId: string, actor: string, x: int, y: int, name: Option<string>, newId: string)
    requires Fresh(w, newId) && ExecSpawn(w, sceneId, actor, x, y, name, newId).1.Success?
    requires forall s, id | Has(w.scenes, s) && Has(Get(w.scenes, s).tokens, id) :: id != ""
    ensures var (w', r) := ExecSpawn(w, sceneId, actor, x, y, name, newId);
      var scene, found := ResolveScene(w, Some(sceneId)), ResolveActor(w, actor);
      && r.body.Created? && r.body.id != ""
      && found.Some?
      && (ExecDeleteToken(w', sceneId, r.body.id).0 == w <==>
        Find(SceneTokens(w, scene), SameToken(found.value, name)).None?)
  {
    var scene, found := ResolveScene(w, Some(sceneId)).value, ResolveActor(w, actor).value;
    match Find(SceneTokens(w, Some(scene)), SameToken(found, name)) {
      case None => NewTokenDeleted(w, scene, sceneId, actor, x, y, name, newId);
      case Some(id) => OldTokenDeleted(w, scene, sceneId, actor, x, y, name, newId, id);
    }
  }

  lemma TokenDeleted(w: World, scene: string, sceneId: string, tokens: Docs<Token>, id: string)
    requires Has(w.scenes, scene) && ResolveScene(w, Some(sceneId)) == Some(scene) && Has(tokens, id)
    ensures ExecDeleteToken(WithTokens(w, scene, tokens), sceneId, id).0 == WithTokens(w, scene, Delete(tokens, id))
  {
    ResolvesAsBefore(w, scene, tokens, sceneId);
    TokensTwice(w, scene, tokens, Delete(tokens, id));
  }

  lemma NewTokenDeleted(w: World, scene: string, sceneId: string, actor: string, x: int, y: int, name: Option<string>,
      newId: string)
    requires Has(w.scenes, scene) && ResolveScene(w, Some(sceneId)) == Some(scene)
    requires var found := ResolveActor(w, actor);
      found.Some? && Find(SceneTokens(w, Some(scene)), SameToken(found.value, name)).None?
    requires newId != "" && !Has(SceneTokens(w, Some(scene)), newId)
    ensures var (w', r) := ExecSpawn(w, sceneId, actor, x, y, name, newId);
      r.Success? && r.body.Created? && r.body.id == newId && ExecDeleteToken(w', sceneId, newId).0 == w
  {
    var found, tokens := ResolveActor(w, actor).value, SceneTokens(w, Some(scene));
    var token := Token(if name.Some? then name.value else TextAt(Get(w.actors, found), "name"), found, x, y,
      TextAt(Get(w.actors, found), "type") == "character");
    DeleteAppended(tokens, newId, token);
    TokenDeleted(w, scene, sceneId, tokens + [(newId, token)], newId);
    TokensTwice(w, scene, tokens, tokens);
  }

  lemma OldTokenDeleted(w: World, scene: string, sceneId: string, actor: string, x: int, y: int, name: Option<string>,
      newId: string, id: string)
    requires Has(w.scenes, scene) && ResolveScene(w, Some(sceneId)) == Some(scene) && id != ""
    requires var found := ResolveActor(w, actor);
      found.Some? && Find(SceneTokens(w, Some(scene)), SameToken(found.value, name)) == Some(id)
    ensures var (w', r) := ExecSpawn(w, sceneId, actor, x, y, name, newId);
      r.Success? && r.body.Created? && r.body.id == id && ExecDeleteToken(w', sceneId, id).0 != w
  {
    var found, tokens := ResolveActor(w, actor).value, SceneTokens(w, Some(scene));
    var token := Get(tokens, id);
    var token' := if TextAt(Get(w.actors, found), "type") == "character" then token.(playable := true) else token;
    SetTwice(tokens, id, token', token');
    var left := Delete(Set(tokens, id, token'), id);
    TokenDeleted(w, scene, sceneId, Set(tokens, id, token'), id);
    TokensTwice(w, scene, left, tokens);
    assert |left| == |tokens| - 1;
  }

  lemma {:induction false} SpawnTakenBack(w: World, reg: Reg, cmd: Command, luck: Luck)
    requires cmd.SpawnToken?
    requires var r := ExecSpawn(w, cmd.sceneId, cmd.actor, cmd.x, cmd.y, cmd.tokenName, luck.newId).1;
      r.Success? && r.body.Created? && r.body.id != ""
    ensures var (w', r) := Exec(w, cmd, luck);
      && r == ExecSpawn(w, cmd.sceneId, cmd.actor, cmd.x, cmd.y, cmd.tokenName, luck.newId).1
      && TakenBack(w', cmd, TakeSnapshot(w, reg, cmd, true), r.body, luck) ==
           ExecDeleteToken(ExecSpawn(w, cmd.sceneId, cmd.actor, cmd.x, cmd.y, cmd.tokenName, luck.newId).0,
             cmd.sceneId, r.body.id).0
  {
    hide ExecSpawn, ExecDeleteToken, Previous;
    assert TakeSnapshot(w, reg, cmd, true) == EmptySnap;
  }

  lemma UpdateTakenBack(w: World, reg: Reg, cmd: Command, luck: Luck)
    requires cmd.UpdateActor? && Has(w.actors, cmd.actor) && cmd.actor != ""
    ensures var (w', r) := Exec(w, cmd, luck);
      var previous := Previous(ActorSnapshot(cmd.actor, Get(w.actors, cmd.actor)), cmd.patch);
      && w' == ExecUpdateActor(w, cmd.actor, cmd.patch).0
      && TakenBack(w', cmd, TakeSnapshot(w, reg, cmd, true), r.body, luck) ==
           if cmd.patch == [] then w' else ExecUpdateActor(w', cmd.actor, previous).0
  {
  }

  /** A step whose snapshot was answered is taken back in full exactly when it was `Undoable`. */
  lemma {:induction false} StepUndoneIff(w: World, reg: Reg, cmd: Command, luck: Luck)
    requires Proper(w) && Fresh(w, luck.newId) && Addressed(w, cmd) && Exec(w, cmd, luck).1.Success?
    ensures var (w', r) := Exec(w, cmd, luck);
      TakenBack(w', cmd, TakeSnapshot(w, reg, cmd, true), r.body, luck) == w <==> Undoable(w, reg, cmd, luck)
  {
    match cmd {
      case MoveToken(token, x, y, scene) => MoveTokenUndone(w, reg, token, x, y, scene, luck);
      case ActivateScene(sceneId) => ActivateUndone(w, reg, sceneId, luck);
      case UpdateActor(_, _) => UpdateStepUndone(w, reg, cmd, luck);
      case CreateScene(name, width, height, grid) => CreateSceneUndone(w, reg, name, width, height, grid, luck);
      case CreateActor(name, actorType, system, img, aliases) =>
        CreateActorUndone(w, reg, name, actorType, system, img, aliases, luck);
      case SpawnToken(_, _, _, _, _) => SpawnStepUndone(w, reg, cmd, luck);
      case _ => OtherStepUndone(w, reg, cmd, luck);
    }
  }

  lemma {:induction false} UpdateStepUndone(w: World, reg: Reg, cmd: Command, luck: Luck)
    requires cmd.UpdateActor? && Addressed(w, cmd)
    ensures var (w', r) := Exec(w, cmd, luck);
      TakenBack(w', cmd, TakeSnapshot(w, reg, cmd, true), r.body, luck) == w <==> Undoable(w, reg, cmd, luck)
  {
    UpdateTakenBack(w, reg, cmd, luck);
    UpdateActorUndone(w, cmd.actor, cmd.patch);
  }

  lemma {:induction false} SpawnStepUndone(w: World, reg: Reg, cmd: Command, luck: Luck)
    requires cmd.SpawnToken? && Proper(w) && Fresh(w, luck.newId) && Exec(w, cmd, luck).1.Success?
    ensures var (w', r) := Exec(w, cmd, luck);
      TakenBack(w', cmd, TakeSnapshot(w, reg, cmd, true), r.body, luck) == w <==> Undoable(w, reg, cmd, luck)
  {
    SpawnUndone(w, cmd.sceneId, cmd.actor, cmd.x, cmd.y, cmd.tokenName, luck.newId);
    SpawnTakenBack(w, reg, cmd, luck);
  }

  /** Commands without an inverse. */
  lemma {:induction false} OtherStepUndone(w: World, reg: Reg, cmd: Command, luck: Luck)
    requires !cmd.MoveToken? && !cmd.ActivateScene? && !cmd.UpdateActor? && !cmd.CreateScene? && !cmd.CreateActor?
      && !cmd.SpawnToken?
    requires Exec(w, cmd, luck).1.Success?
    ensures Exec(w, cmd, luck).0 == w <==> Undoable(w, reg, cmd, luck)
    ensures var (w', r) := Exec(w, cmd, luck);
      TakenBack(w', cmd, TakeSnapshot(w, reg, cmd, true), r.body, luck) == w'
  {
    match cmd {
      case DeleteToken(sceneId, token) => DeleteTokenChanges(w, sceneId, token);
      case DeleteActor(actor) =>
        if id :| ResolveActor(w, actor) == Some(id) {
          assert |Delete(w.actors, id)| == |w.actors| - 1;
        }
      case DeleteScene(sceneId) =>
        assert Has(w.scenes, sceneId) ==> |Delete(w.scenes, sceneId)| == |w.scenes| - 1;
      case _ =>
    }
  }

  lemma {:induction false} DeleteTokenChanges(w: World, sceneId: string, token: string)
    requires ExecDeleteToken(w, sceneId, token).1.Success?
    ensures ExecDeleteToken(w, sceneId, token).0 == w <==> !Has(SceneTokens(w, ResolveScene(w, Some(sceneId))), token)
  {
    var scene := ResolveScene(w, Some(sceneId)).value;
    var tokens := SceneTokens(w, Some(scene));
    if Has(tokens, token) {
      var left := Delete(tokens, token);
      TokensTwice(w, scene, left, left);
      assert |left| == |tokens| - 1;
    }
  }
}

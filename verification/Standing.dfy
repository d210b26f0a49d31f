/** Whether the entries of the registry name documents that stand in the Foundry world. */
module Standing {
  import opened Wrappers
  import opened Dotted
  import opened Commands
  import opened World
  import opened Registry
  import opened Inverter
  import opened Batch

  ghost predicate Stands(w: World, id: Id) {
    match id.0
    case SceneKind => Has(w.scenes, id.1)
    case ActorKind => Has(w.actors, id.1)
    case TokenKind => exists s :: HasToken(w, s, id.1)
  }

  predicate HasToken(w: World, scene: string, token: string) {
    Has(w.scenes, scene) && Has(Get(w.scenes, scene).tokens, token)
  }

  /** Every entry names a document of the world. */
  ghost predicate AllStand(sys: Sys) {
    forall id | id in sys.reg.entries :: Stands(sys.world, id)
  }

  predicate Deletes(cmd: Command) {
    cmd.DeleteToken? || cmd.DeleteActor? || cmd.DeleteScene?
  }

  // ---- Commands that do not delete ---------------------------------------------------------------------

  lemma TokensStand(w: World, s: string, tokens: Docs<Token>, id: Id)
    requires Has(w.scenes, s) && Stands(w, id)
    requires forall t | Has(Get(w.scenes, s).tokens, t) :: Has(tokens, t)
    ensures Stands(WithTokens(w, s, tokens), id)
  {
    var scene := Get(w.scenes, s).(tokens := tokens);
    SetTwice(w.scenes, s, scene, scene);
    if id.0.TokenKind? {
      var other :| HasToken(w, other, id.1);
      if other != s {
        SetElsewhere(w.scenes, s, scene, other);
      }
      assert HasToken(WithTokens(w, s, tokens), other, id.1);
    }
  }

  lemma SceneKept(w: World, w': World, id: Id)
    requires w'.actors == w.actors && Stands(w, id)
    requires forall s | Has(w.scenes, s) :: Has(w'.scenes, s) && Get(w'.scenes, s).tokens == Get(w.scenes, s).tokens
    ensures Stands(w', id)
  {
    if id.0.TokenKind? {
      var s :| HasToken(w, s, id.1);
      assert HasToken(w', s, id.1);
    }
  }

  lemma ActorsKept(w: World, w': World, id: Id)
    requires w'.scenes == w.scenes && Stands(w, id)
    requires forall a | Has(w.actors, a) :: Has(w'.actors, a)
    ensures Stands(w', id)
  {
    if id.0.TokenKind? {
      var s :| HasToken(w, s, id.1);
      assert HasToken(w', s, id.1);
    }
  }

  /** What stands goes on standing. */
  lemma {:induction false} StandsOn(w: World, cmd: Command, luck: Luck, id: Id)
    requires Fresh(w, luck.newId) && !Deletes(cmd) && !LeftToEnvironment(cmd) && Stands(w, id)
    ensures Stands(Exec(w, cmd, luck).0, id)
  {
    hide Stands, Fresh;
    var (w', r) := Exec(w, cmd, luck);
    if r.Success? {
      match cmd {
        case MoveToken(token, x, y, _) => MoveStands(w, token, x, y, id);
        case ActivateScene(_) => SceneKept(w, w', id);
        case UpdateActor(actor, patch) =>
          var found := ResolveActor(w, actor).value;
          ActorUpdateStands(w, found, Update(Get(w.actors, found), patch), id);
        case CreateScene(name, width, height, grid) => SceneCreationStands(w, cmd, luck, id);
        case CreateActor(_, _, _, _, _) => ActorCreationStands(w, cmd, luck, id);
        case SpawnToken(_, _, _, _, _) => SpawnStands(w, cmd, luck, id);
        case _ =>
      }
    }
  }

  lemma MoveStands(w: World, token: string, x: int, y: int, id: Id)
    requires Stands(w, id) && ExecMoveToken(w, token, x, y).1.Success?
    ensures Stands(ExecMoveToken(w, token, x, y).0, id)
  {
    var tokens := SceneTokens(w, w.current);
    var moved := Get(tokens, token).(x := x, y := y);
    SetTwice(tokens, token, moved, moved);
    TokensStand(w, w.current.value, Set(tokens, token, moved), id);
  }

  lemma ActorUpdateStands(w: World, actor: string, doc: Actor, id: Id)
    requires Has(w.actors, actor) && Stands(w, id)
    ensures Stands(w.(actors := Set(w.actors, actor, doc)), id)
  {
    SetTwice(w.actors, actor, doc, doc);
    ActorsKept(w, w.(actors := Set(w.actors, actor, doc)), id);
  }

  lemma SceneCreationStands(w: World, cmd: Command, luck: Luck, id: Id)
    requires cmd.CreateScene? && Fresh(w, luck.newId) && Stands(w, id)
    ensures Stands(Exec(w, cmd, luck).0, id)
  {
    var w' := ExecCreateScene(w, cmd.name, cmd.width, cmd.height, cmd.grid, luck.newId).0;
    match Find(w.scenes, (s: Scene) => s.name == cmd.name) {
      case None => HasAppended(w.scenes, luck.newId, Scene(cmd.name, cmd.width, cmd.height, cmd.grid, []));
      case Some(found) =>
        var scene := Get(w.scenes, found).(width := cmd.width, height := cmd.height, grid := cmd.grid);
        SetTwice(w.scenes, found, scene, scene);
        forall s | Has(w.scenes, s)
          ensures Get(w'.scenes, s).tokens == Get(w.scenes, s).tokens
        {
          if s != found {
            SetElsewhere(w.scenes, found, scene, s);
          }
        }
    }
    SceneKept(w, w', id);
  }

  lemma ActorCreationStands(w: World, cmd: Command, luck: Luck, id: Id)
    requires cmd.CreateActor? && Fresh(w, luck.newId) && Stands(w, id)
    ensures Stands(Exec(w, cmd, luck).0, id)
  {
    var w' := ExecCreateActor(w, cmd.name, cmd.actorType, cmd.system, cmd.img, luck.newId).0;
    match Find(w.actors, SameActor(cmd.name, cmd.actorType)) {
      case None => HasAppended(w.actors, luck.newId, w'.actors[|w.actors|].1);
      case Some(found) =>
        var doc: Actor := w'.actors[IndexOf(w.actors, found)].1;
        SetTwice(w.actors, found, doc, doc);
    }
    ActorsKept(w, w', id);
  }

  lemma SpawnStands(w: World, cmd: Command, luck: Luck, id: Id)
    requires cmd.SpawnToken? && Fresh(w, luck.newId) && Stands(w, id)
    ensures Stands(Exec(w, cmd, luck).0, id)
  {
    var scene, found := ResolveScene(w, Some(cmd.sceneId)), ResolveActor(w, cmd.actor);
    if scene.Some? && Has(w.scenes, scene.value) && found.Some? {
      var tokens := SceneTokens(w, scene);
      var after := SceneTokens(ExecSpawn(w, cmd.sceneId, cmd.actor, cmd.x, cmd.y, cmd.tokenName, luck.newId).0, scene);
      SpawnedTokens(w, cmd, luck);
      TokensStand(w, scene.value, after, id);
    }
  }

  /** The tokens of the scene after a spawn: none is gone, and the one that is returned is there. */
  lemma SpawnedTokens(w: World, cmd: Command, luck: Luck)
    requires cmd.SpawnToken? && Fresh(w, luck.newId) && Exec(w, cmd, luck).1.Success?
    ensures var (w', r) := Exec(w, cmd, luck);
      var scene := ResolveScene(w, Some(cmd.sceneId));
      && r.body.Created? && scene.Some? && Has(w.scenes, scene.value) && Has(w'.scenes, scene.value)
      && w' == WithTokens(w, scene.value, SceneTokens(w', scene))
      && Has(SceneTokens(w', scene), r.body.id)
      && forall t | Has(SceneTokens(w, scene), t) :: Has(SceneTokens(w', scene), t)
  {
    var scene, found := ResolveScene(w, Some(cmd.sceneId)).value, ResolveActor(w, cmd.actor).value;
    var tokens := SceneTokens(w, Some(scene));
    match Find(tokens, SameToken(found, cmd.tokenName)) {
      case None =>
        var doc := Get(w.actors, found);
        var token := Token(
          if cmd.tokenName.Some? then cmd.tokenName.value else TextAt(doc, "name"), found, cmd.x, cmd.y,
          TextAt(doc, "type") == "character");
        HasAppended(tokens, luck.newId, token);
        TokensTwice(w, scene, tokens + [(luck.newId, token)], tokens);
      case Some(id) =>
        var token := Get(tokens, id);
        var token' := if TextAt(Get(w.actors, found), "type") == "character" then token.(playable := true) else token;
        SetTwice(tokens, id, token', token');
        TokensTwice(w, scene, Set(tokens, id, token'), tokens);
    }
  }

  /** What a success registers stands. */
  lemma {:induction false} RegisteredStands(w: World, cmd: Command, luck: Luck)
    requires Fresh(w, luck.newId) && Exec(w, cmd, luck).1.Success?
    requires RegistrationOf(cmd, Exec(w, cmd, luck).1.body).Some?
    ensures Stands(Exec(w, cmd, luck).0, RegistrationOf(cmd, Exec(w, cmd, luck).1.body).value.id)
  {
    var (w', r) := Exec(w, cmd, luck);
    match cmd {
      case CreateScene(name, width, height, grid) =>
        match Find(w.scenes, (s: Scene) => s.name == name) {
          case None => HasAppended(w.scenes, luck.newId, Scene(name, width, height, grid, []));
          case Some(found) =>
            var scene := Get(w.scenes, found).(width := width, height := height, grid := grid);
            SetTwice(w.scenes, found, scene, scene);
        }
      case CreateActor(name, actorType, _, _, _) =>
        match Find(w.actors, SameActor(name, actorType)) {
          case None => HasAppended(w.actors, luck.newId, w'.actors[|w.actors|].1);
          case Some(found) =>
            var doc: Actor := w'.actors[IndexOf(w.actors, found)].1;
            SetTwice(w.actors, found, doc, doc);
        }
      case SpawnToken(sceneId, _, _, _, _) =>
        SpawnedTokens(w, cmd, luck);
        assert HasToken(w', ResolveScene(w, Some(sceneId)).value, r.body.id);
    }
  }

  /** A step that is answered with success and does not delete keeps every entry standing, also where the registry
      refuses an alias of what was created. */
  lemma {:induction false} NextStands(sys: Sys, cmd: Command, turn: Turn)
    requires AllStand(sys) && Fresh(sys.world, turn.luck.newId) && !Deletes(cmd) && !LeftToEnvironment(cmd)
    ensures AllStand(Next(sys, cmd, turn))
  {
    hide Exec, Stands, RegistrationOf;
    var (world, response) := Exec(sys.world, cmd, turn.luck);
    if response.Success? {
      if RegistrationOf(cmd, response.body).Some? {
        RegisteredStands(sys.world, cmd, turn.luck);
        var r := RegistrationOf(cmd, response.body).value;
        OnlyEnters(sys.reg, r.id, r.name, r.scene, turn.order(NamesOf(r)));
      }
      forall id | id in sys.reg.entries
        ensures Stands(world, id)
      {
        StandsOn(sys.world, cmd, turn.luck, id);
      }
    }
  }

  lemma OnlyEnters(reg: Reg, id: Id, name: string, scene: Option<string>, order: seq<string>)
    ensures Registered(reg, id, name, scene, order).0.entries.Keys <= reg.entries.Keys + {id}
  {
    if GoodArguments(id, name, scene) {
      AddAllGrows(Enter(reg, id, name, scene), id, order);
    }
  }

  // ---- Deletions ------------------------------------------------------------------------------------------

  ghost predicate NoTwins<T>(docs: Docs<T>) {
    forall i, j | 0 <= i < j < |docs| :: docs[i].0 != docs[j].0
  }

  /** Ids are unique in each collection. */
  ghost predicate Unique(w: World) {
    NoTwins(w.scenes) && NoTwins(w.actors) && forall s | Has(w.scenes, s) :: NoTwins(Get(w.scenes, s).tokens)
  }

  lemma DeleteHas<T>(docs: Docs<T>, id: string, other: string)
    requires NoTwins(docs) && Has(docs, id)
    ensures Has(Delete(docs, id), other) <==> Has(docs, other) && other != id
    ensures Has(docs, other) && other != id ==> Get(Delete(docs, id), other) == Get(docs, other)
  {
    var i, left := IndexOf(docs, id), Delete(docs, id);
    assert forall k | 0 <= k < |left| :: left[k] == docs[if k < i then k else k + 1];
    if other == id {
      IndexIs(left, id, |left|);
    } else {
      var j := IndexOf(docs, other);
      IndexIs(left, other, if j <= i then j else j - 1);
    }
  }

  /** The deletion takes this document away: the one it names, and a scene's tokens with the scene. */
  predicate Gone(w: World, cmd: Command, id: Id) {
    match cmd
    case DeleteToken(sceneId, token) =>
      id == (TokenKind, token) && Has(SceneTokens(w, ResolveScene(w, Some(sceneId))), token)
    case DeleteActor(actor) => id.0.ActorKind? && ResolveActor(w, actor) == Some(id.1)
    case DeleteScene(scene) =>
      Has(w.scenes, scene) && (id == (SceneKind, scene) || (id.0.TokenKind? && HasToken(w, scene, id.1)))
    case _ => false
  }

  lemma {:induction false} DeletionStandsIff(w: World, cmd: Command, luck: Luck, id: Id)
    requires Proper(w) && Unique(w) && Deletes(cmd) && Stands(w, id)
    ensures Stands(Exec(w, cmd, luck).0, id) <==> !Gone(w, cmd, id)
  {
    match cmd {
      case DeleteToken(_, _) => TokenDeletionStandsIff(w, cmd, luck, id);
      case DeleteActor(actor) => ActorDeletionStandsIff(w, actor, luck, id);
      case DeleteScene(scene) => SceneDeletionStandsIff(w, scene, luck, id);
    }
  }

  lemma {:induction false} ActorDeletionStandsIff(w: World, actor: string, luck: Luck, id: Id)
    requires Unique(w) && Stands(w, id)
    ensures Stands(Exec(w, DeleteActor(actor), luck).0, id) <==> !Gone(w, DeleteActor(actor), id)
  {
    var w' := Exec(w, DeleteActor(actor), luck).0;
    if found :| ResolveActor(w, actor) == Some(found) {
      if id.0.ActorKind? {
        DeleteHas(w.actors, found, id.1);
      } else if id.0.TokenKind? {
        var s :| HasToken(w, s, id.1);
        assert HasToken(w', s, id.1);
      }
    }
  }

  lemma {:induction false} SceneDeletionStandsIff(w: World, scene: string, luck: Luck, id: Id)
    requires Proper(w) && Unique(w) && Stands(w, id)
    ensures Stands(Exec(w, DeleteScene(scene), luck).0, id) <==> !Gone(w, DeleteScene(scene), id)
  {
    var w' := Exec(w, DeleteScene(scene), luck).0;
    if Has(w.scenes, scene) {
      DeleteHas(w.scenes, scene, id.1);
      if id.0.TokenKind? {
        var s :| HasToken(w, s, id.1);
        DeleteHas(w.scenes, scene, s);
        if s != scene {
          assert HasToken(w', s, id.1);
        } else {
          forall other
            ensures !HasToken(w', other, id.1)
          {
            DeleteHas(w.scenes, scene, other);
          }
        }
      }
    }
  }

  lemma {:induction false} TokenDeletionStandsIff(w: World, cmd: Command, luck: Luck, id: Id)
    requires Proper(w) && Unique(w) && cmd.DeleteToken? && Stands(w, id)
    ensures Stands(Exec(w, cmd, luck).0, id) <==> !Gone(w, cmd, id)
  {
    var scene := ResolveScene(w, Some(cmd.sceneId));
    if scene.Some? && Has(w.scenes, scene.value) && Has(SceneTokens(w, scene), cmd.token) {
      var s, tokens := scene.value, SceneTokens(w, scene);
      var left := Delete(tokens, cmd.token);
      var w' := WithTokens(w, s, left);
      assert Exec(w, cmd, luck).0 == w';
      TokensTwice(w, s, left, left);
      var after := Get(w.scenes, s).(tokens := left);
      SetTwice(w.scenes, s, after, after);
      if id.0.TokenKind? {
        var at :| HasToken(w, at, id.1);
        assert HasToken(w, s, cmd.token);
        forall other
          ensures HasToken(w', other, id.1) <==> HasToken(w, other, id.1) && id.1 != cmd.token
        {
          if other != s {
            SetElsewhere(w.scenes, s, after, other);
          } else {
            DeleteHas(tokens, cmd.token, id.1);
          }
        }
        assert HasToken(w', at, id.1) <==> id.1 != cmd.token;
      }
    }
  }

  /** Nothing is unregistered when a command of a batch deletes: afterwards every entry stands exactly when none of them
      named what was deleted. */
  lemma {:induction false} NextStandsIff(sys: Sys, cmd: Command, turn: Turn)
    requires AllStand(sys) && Proper(sys.world) && Unique(sys.world) && Deletes(cmd)
    ensures AllStand(Next(sys, cmd, turn)) <==>
      Exec(sys.world, cmd, turn.luck).1.Failure? || forall id | id in sys.reg.entries :: !Gone(sys.world, cmd, id)
  {
    hide Exec, Stands, Gone;
    if Exec(sys.world, cmd, turn.luck).1.Success? {
      NothingRegistered(sys, cmd, turn);
      forall id | id in sys.reg.entries
        ensures Stands(Exec(sys.world, cmd, turn.luck).0, id) <==> !Gone(sys.world, cmd, id)
      {
        DeletionStandsIff(sys.world, cmd, turn.luck, id);
      }
    }
  }

  lemma NothingRegistered(sys: Sys, cmd: Command, turn: Turn)
    requires Deletes(cmd) && Exec(sys.world, cmd, turn.luck).1.Success?
    ensures Next(sys, cmd, turn) == Sys(Exec(sys.world, cmd, turn.luck).0, sys.reg)
  {
  }

  /** The entry that an answered inverse unregisters. */
  function Unregisters(inverse: Command): Id
    requires Deletes(inverse)
  {
    match inverse
    case DeleteScene(id) => (SceneKind, id)
    case DeleteActor(id) => (ActorKind, id)
    case DeleteToken(_, id) => (TokenKind, id)
  }

  /** After an inverse that deletes, every entry stands exactly when the deletion, if it runs, took away nothing
      registered but what the inverse, if it is answered, unregisters. */
  lemma {:induction false} UndoStandsIff(sys: Sys, inverse: Command, turn: Turn)
    requires AllStand(sys) && Proper(sys.world) && Unique(sys.world) && Deletes(inverse)
    ensures AllStand(UndoOne(sys, inverse, turn)) <==>
      (turn.undoAnswered || turn.undoRuns ==>
        forall id | id in sys.reg.entries && Gone(sys.world, inverse, id) ::
          turn.undoAnswered && id == Unregisters(inverse))
  {
    hide Exec, Stands, Gone;
    assert UnregisterInverse(sys.reg, inverse) == Unregistered(sys.reg, Unregisters(inverse));
    if turn.undoAnswered || turn.undoRuns {
      forall id | id in sys.reg.entries
        ensures Stands(Exec(sys.world, inverse, turn.luck).0, id) <==> !Gone(sys.world, inverse, id)
      {
        DeletionStandsIff(sys.world, inverse, turn.luck, id);
      }
    }
  }
}

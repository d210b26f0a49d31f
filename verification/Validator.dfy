/** `CommandValidator`: aliases rewritten to ids, and the rules of each command. */
module Validator {
  import opened Wrappers
  import opened Trees
  import opened Paths
  import opened Dotted
  import opened Commands
  import opened Registry
  import Text

  datatype Code =
    | Schema
    | Unknown(kind: Kind)
    | BadCoordinates
    | MissingTarget
    | EmptyPatch
    | ForbiddenPatchKey
    | EmptyField
    | NonPositive

  datatype Error = Error(code: Code, field: string)

  const MAX_COORDINATE := 20_000

  const ALLOW: seq<string> := [
    "name", "img", "system.abilities.", "system.attributes.", "system.details.", "system.skills.", "system.spells.",
    "system.traits.", "system.currency."]

  // ---- The rules ------------------------------------------------------------------------------------

  function BadCoordinate(name: string, value: int): Option<Error> {
    if value < 0 || value > MAX_COORDINATE then Some(Error(BadCoordinates, name)) else None
  }

  function BadPlace(x: int, y: int): Option<Error> {
    if BadCoordinate("x", x).Some? then BadCoordinate("x", x) else BadCoordinate("y", y)
  }

  function Blank(value: string, field: string): Option<Error> {
    if value == "" || Text.Strip(value) == "" then Some(Error(EmptyField, field)) else None
  }

  function NotPositive(value: int, field: string): Option<Error> {
    if value <= 0 then Some(Error(NonPositive, field)) else None
  }

  function First(a: Option<Error>, b: Option<Error>): Option<Error> {
    if a.Some? then a else b
  }

  /** `s.rstrip(".")`. */
  function StripDots(s: string): string {
    if s != "" && s[|s| - 1] == '.' then StripDots(s[..|s| - 1]) else s
  }

  predicate Allows(allow: string, key: string) {
    key == StripDots(allow) || allow <= key
  }

  predicate Allowed(key: string) {
    exists i | 0 <= i < |ALLOW| :: Allows(ALLOW[i], key)
  }

  function ForbiddenKey(patch: Patch): Option<Error> {
    if patch == [] then None
    else if !Allowed(patch[0].0) then Some(Error(ForbiddenPatchKey, "patch." + patch[0].0))
    else ForbiddenKey(patch[1..])
  }

  function BadPatch(patch: Patch): Option<Error> {
    if patch == [] then Some(Error(EmptyPatch, "patch")) else ForbiddenKey(patch)
  }

  // ---- The check ----------------------------------------------------------------------------------------

  function Strictly(reg: Reg, kind: Kind, key: string, scene: Option<string>, field: string): Result<string, Error> {
    match Resolve(reg, kind, key, scene)
    case Some(id) => Ok(id)
    case None => Err(Error(Unknown(kind), field))
  }

  /** Best effort: a key that does not resolve is left for Foundry. */
  function Loosely(reg: Reg, kind: Kind, key: string, scene: Option<string>): string {
    match Resolve(reg, kind, key, scene)
    case Some(id) => id
    case None => key
  }

  function LooseScene(reg: Reg, scene: Option<string>): Option<string> {
    if scene.None? || scene.value == "" then scene else Some(Loosely(reg, SceneKind, scene.value, None))
  }

  function Unless(error: Option<Error>, cmd: Command): Result<Command, Error> {
    if error.Some? then Err(error.value) else Ok(cmd)
  }

  predicate Given(text: Option<string>) {
    text.Some? && text.value != ""
  }

  function Highlighted(reg: Reg, name: string): string {
    if Resolve(reg, TokenKind, name, None).Some? then Resolve(reg, TokenKind, name, None).value
    else Loosely(reg, ActorKind, name, None)
  }

  /** `_semantic_check`. */
  function Validated(reg: Reg, cmd: Command): Result<Command, Error> {
    match cmd
    case MoveToken(token, x, y, scene) =>
      var r := Strictly(reg, TokenKind, token, scene, "token_id");
      if r.Err? then Err(r.error) else Unless(BadPlace(x, y), MoveToken(r.value, x, y, scene))
    case MoveActorTo(actor, target, targetId, scene, at, distanceFt, direction) =>
      Unless(
        if at.Some? then BadPlace(at.value.0, at.value.1)
        else if !Given(target) && !Given(targetId)
          && !(Given(direction) && distanceFt.Some? && distanceFt.value != 0) then
          Some(Error(MissingTarget, "target"))
        else None,
        MoveActorTo(Loosely(reg, ActorKind, actor, None), target, targetId, LooseScene(reg, scene), at, distanceFt,
          direction))
    case ActivateScene(scene) =>
      var r := Strictly(reg, SceneKind, scene, None, "scene_id");
      if r.Err? then Err(r.error) else Ok(ActivateScene(r.value))
    case UpdateActor(actor, patch) =>
      var r := Strictly(reg, ActorKind, actor, None, "actor_id");
      if r.Err? then Err(r.error) else Unless(BadPatch(patch), UpdateActor(r.value, patch))
    case HighlightObject(name) => Ok(HighlightObject(Highlighted(reg, name)))
    case CreateScene(name, width, height, grid) =>
      Unless(First(Blank(name, "name"), First(NotPositive(width, "width"),
        First(NotPositive(height, "height"), NotPositive(grid, "grid")))), cmd)
    case CreateActor(name, actorType, _, _, _) => Unless(First(Blank(name, "name"), Blank(actorType, "actor_type")),
      cmd)
    case SpawnToken(scene, actor, x, y, tokenName) =>
      var s := Strictly(reg, SceneKind, scene, None, "scene_id");
      var a := Strictly(reg, ActorKind, actor, None, "actor_id");
      if s.Err? then Err(s.error) else if a.Err? then Err(a.error)
      else Unless(BadPlace(x, y), SpawnToken(s.value, a.value, x, y, tokenName))
    case DeleteToken(scene, token) =>
      var s := Strictly(reg, SceneKind, scene, None, "scene_id");
      if s.Err? then Err(s.error) else Ok(DeleteToken(s.value, Loosely(reg, TokenKind, token, Some(s.value))))
    case DeleteActor(actor) =>
      var r := Strictly(reg, ActorKind, actor, None, "actor_id");
      if r.Err? then Err(r.error) else Ok(DeleteActor(r.value))
    case DeleteScene(scene) =>
      var r := Strictly(reg, SceneKind, scene, None, "scene_id");
      if r.Err? then Err(r.error) else Ok(DeleteScene(r.value))
    case ReadToken(scene, token) =>
      if scene.None? then Err(Error(Schema, "scene_id"))
      else
        var s := Strictly(reg, SceneKind, scene.value, None, "scene_id");
        if s.Err? then Err(s.error) else Ok(ReadToken(Some(s.value), Loosely(reg, TokenKind, token, Some(s.value))))
    case ReadActor(actor) =>
      var r := Strictly(reg, ActorKind, actor, None, "actor_id");
      if r.Err? then Err(r.error) else Ok(ReadActor(r.value))
    case ReadActiveScene => Ok(cmd)
    case CreateJournal(title) => Unless(Blank(title, "title"), cmd)
    case UpdateJournal(journal, title, content) =>
      Unless(First(Blank(journal, "journal_id"),
        if title.None? && content.None? then Some(Error(EmptyPatch, "patch")) else None), cmd)
    case CreateNote(scene, x, y, text) =>
      Unless(First(Blank(text, "text"), BadPlace(x, y)), CreateNote(LooseScene(reg, scene), x, y, text))
    case GiveItem(actor, itemKey, qty) =>
      Unless(First(Blank(itemKey, "item_key"), NotPositive(qty, "qty")),
        GiveItem(Loosely(reg, ActorKind, actor, None), itemKey, qty))
    case ApplyDamage(actor, amount) =>
      Unless(if amount < 0 then Some(Error(NonPositive, "amount")) else None,
        ApplyDamage(Loosely(reg, ActorKind, actor, None), amount))
  }

  // ---- Validating again ---------------------------------------------------------------------------------

  lemma LooselyTwice(reg: Reg, kind: Kind, key: string, scene: Option<string>)
    requires Agrees(reg, kind)
    ensures Loosely(reg, kind, Loosely(reg, kind, key, scene), scene) == Loosely(reg, kind, key, scene)
  {
    if Resolve(reg, kind, key, scene).Some? {
      ResolveIsLive(reg, kind, key, scene);
    }
  }

  lemma StrictlyTwice(reg: Reg, kind: Kind, key: string, scene: Option<string>, field: string)
    requires Agrees(reg, kind) && Strictly(reg, kind, key, scene, field).Ok?
    ensures var id := Strictly(reg, kind, key, scene, field).value;
      Strictly(reg, kind, id, scene, field) == Ok(id) && (kind, id) in reg.entries
  {
    ResolveIsLive(reg, kind, key, scene);
  }

  lemma LooseSceneTwice(reg: Reg, scene: Option<string>)
    requires Agrees(reg, SceneKind)
    ensures LooseScene(reg, LooseScene(reg, scene)) == LooseScene(reg, scene)
  {
    if Given(scene) {
      LooselyTwice(reg, SceneKind, scene.value, None);
    }
  }

  /** Validating a validated command of any type but `highlight_object` accepts it and changes nothing. */
  lemma ValidatedTwice(reg: Reg, cmd: Command)
    requires forall kind :: Agrees(reg, kind)
    requires Validated(reg, cmd).Ok? && !cmd.HighlightObject?
    ensures Validated(reg, Validated(reg, cmd).value) == Validated(reg, cmd)
  {
    hide Text.Strip, Allowed, ForbiddenKey, Resolve;
    assert Agrees(reg, SceneKind) && Agrees(reg, ActorKind) && Agrees(reg, TokenKind);
    match cmd {
      case MoveToken(token, _, _, scene) => StrictlyTwice(reg, TokenKind, token, scene, "token_id");
      case MoveActorTo(actor, _, _, scene, _, _, _) =>
        LooselyTwice(reg, ActorKind, actor, None);
        LooseSceneTwice(reg, scene);
      case ActivateScene(scene) => StrictlyTwice(reg, SceneKind, scene, None, "scene_id");
      case UpdateActor(actor, _) => StrictlyTwice(reg, ActorKind, actor, None, "actor_id");
      case SpawnToken(scene, actor, _, _, _) =>
        StrictlyTwice(reg, SceneKind, scene, None, "scene_id");
        StrictlyTwice(reg, ActorKind, actor, None, "actor_id");
      case DeleteToken(scene, token) =>
        StrictlyTwice(reg, SceneKind, scene, None, "scene_id");
        LooselyTwice(reg, TokenKind, token, Some(Strictly(reg, SceneKind, scene, None, "scene_id").value));
      case DeleteActor(actor) => StrictlyTwice(reg, ActorKind, actor, None, "actor_id");
      case DeleteScene(scene) => StrictlyTwice(reg, SceneKind, scene, None, "scene_id");
      case ReadToken(scene, token) =>
        StrictlyTwice(reg, SceneKind, scene.value, None, "scene_id");
        LooselyTwice(reg, TokenKind, token, Some(Strictly(reg, SceneKind, scene.value, None, "scene_id").value));
      case ReadActor(actor) => StrictlyTwice(reg, ActorKind, actor, None, "actor_id");
      case CreateNote(scene, _, _, _) => LooseSceneTwice(reg, scene);
      case GiveItem(actor, _, _) => LooselyTwice(reg, ActorKind, actor, None);
      case ApplyDamage(actor, _) => LooselyTwice(reg, ActorKind, actor, None);
      case _ =>
    }
  }

  /** Validating a validated `highlight_object` changes its target exactly when the target resolved as an actor
      whose id is an alias of a token that goes by another id. */
  lemma HighlightedTwiceIff(reg: Reg, name: string)
    requires forall kind :: Agrees(reg, kind)
    ensures Highlighted(reg, Highlighted(reg, name)) != Highlighted(reg, name) <==>
      var actor := Resolve(reg, ActorKind, name, None);
      Resolve(reg, TokenKind, name, None).None? && actor.Some? &&
      (TokenKind, actor.value) !in reg.entries && Resolve(reg, TokenKind, actor.value, None).Some?
      && Resolve(reg, TokenKind, actor.value, None) != actor
  {
    assert Agrees(reg, ActorKind) && Agrees(reg, TokenKind);
    if Resolve(reg, TokenKind, name, None).Some? {
      ResolveIsLive(reg, TokenKind, name, None);
    } else if Resolve(reg, ActorKind, name, None).Some? {
      ResolveIsLive(reg, ActorKind, name, None);
    }
  }

  /** The command without the fields that may be rewritten. */
  function Unaddressed(cmd: Command): Command {
    match cmd
    case MoveToken(_, x, y, scene) => MoveToken("", x, y, scene)
    case MoveActorTo(_, target, targetId, scene, at, distanceFt, direction) =>
      MoveActorTo("", target, targetId, if Given(scene) then Some("") else scene, at, distanceFt, direction)
    case ActivateScene(_) => ActivateScene("")
    case UpdateActor(_, patch) => UpdateActor("", patch)
    case HighlightObject(_) => HighlightObject("")
    case SpawnToken(_, _, x, y, tokenName) => SpawnToken("", "", x, y, tokenName)
    case DeleteToken(_, _) => DeleteToken("", "")
    case DeleteActor(_) => DeleteActor("")
    case DeleteScene(_) => DeleteScene("")
    case ReadToken(_, _) => ReadToken(Some(""), "")
    case ReadActor(_) => ReadActor("")
    case CreateNote(scene, x, y, text) => CreateNote(if Given(scene) then Some("") else scene, x, y, text)
    case GiveItem(_, itemKey, qty) => GiveItem("", itemKey, qty)
    case ApplyDamage(_, amount) => ApplyDamage("", amount)
    case _ => cmd
  }

  predicate InBounds(x: int, y: int) {
    0 <= x <= MAX_COORDINATE && 0 <= y <= MAX_COORDINATE
  }

  /** What every accepted command can be relied on for. */
  ghost predicate Reliable(cmd: Command) {
    match cmd
    case MoveToken(_, x, y, _) => InBounds(x, y)
    case MoveActorTo(_, target, targetId, _, at, feet, direction) =>
      if at.Some? then InBounds(at.value.0, at.value.1)
      else Given(target) || Given(targetId) || (Given(direction) && feet.Some? && feet.value != 0)
    case UpdateActor(_, patch) => patch != [] && forall i | 0 <= i < |patch| :: Allowed(patch[i].0)
    case CreateScene(name, width, height, grid) => Text.Strip(name) != "" && width > 0 && height > 0 && grid > 0
    case SpawnToken(_, _, x, y, _) => InBounds(x, y)
    case CreateActor(name, actorType, _, _, _) => Text.Strip(name) != "" && Text.Strip(actorType) != ""
    case ReadToken(scene, _) => scene.Some?
    case CreateJournal(title) => Text.Strip(title) != ""
    case UpdateJournal(journal, title, content) => Text.Strip(journal) != "" && (title.Some? || content.Some?)
    case CreateNote(_, x, y, text) => InBounds(x, y) && Text.Strip(text) != ""
    case GiveItem(_, itemKey, qty) => Text.Strip(itemKey) != "" && qty > 0
    case ApplyDamage(_, amount) => amount >= 0
    case _ => true
  }

  /** The strictly resolved names of a command all resolve. */
  predicate Known(reg: Reg, cmd: Command) {
    match cmd
    case MoveToken(token, _, _, scene) => Resolve(reg, TokenKind, token, scene).Some?
    case ActivateScene(scene) => Resolve(reg, SceneKind, scene, None).Some?
    case UpdateActor(actor, _) => Resolve(reg, ActorKind, actor, None).Some?
    case SpawnToken(scene, actor, _, _, _) => Resolve(reg, SceneKind, scene, None).Some?
      && Resolve(reg, ActorKind, actor, None).Some?
    case DeleteToken(scene, _) => Resolve(reg, SceneKind, scene, None).Some?
    case DeleteActor(actor) => Resolve(reg, ActorKind, actor, None).Some?
    case DeleteScene(scene) => Resolve(reg, SceneKind, scene, None).Some?
    case ReadToken(scene, _) => scene.Some? && Resolve(reg, SceneKind, scene.value, None).Some?
    case ReadActor(actor) => Resolve(reg, ActorKind, actor, None).Some?
    case _ => true
  }

  lemma {:induction false} ForbiddenKeyIff(patch: Patch)
    ensures ForbiddenKey(patch).None? <==> forall i | 0 <= i < |patch| :: Allowed(patch[i].0)
    decreases |patch|
  {
    if patch != [] {
      ForbiddenKeyIff(patch[1..]);
      assert patch == [patch[0]] + patch[1..];
    }
  }

  lemma {:induction false} AcceptsIff(reg: Reg, cmd: Command)
    ensures Validated(reg, cmd).Ok? <==> Known(reg, cmd) && Reliable(cmd)
  {
    assert Text.Strip("") == "";
    hide Resolve, Text.Strip, Allowed, ForbiddenKey;
    if cmd.UpdateActor? {
      ForbiddenKeyIff(cmd.patch);
    }
  }

  /** The name is replaced by the id it resolves to, and left alone where it resolves to none. */
  predicate Rewritten(reg: Reg, kind: Kind, name: string, scene: Option<string>, out: string) {
    match Resolve(reg, kind, name, scene)
    case Some(id) => out == id
    case None => out == name
  }

  predicate SceneRewritten(reg: Reg, scene: Option<string>, out: Option<string>) {
    if Given(scene) then out.Some? && Rewritten(reg, SceneKind, scene.value, None, out.value) else out == scene
  }

  /** In an accepted command each name that resolves is replaced by its id: tokens under the command's scene, which for
      a deletion and a reading is the id that its own name resolved to. A highlight takes a token before an actor. */
  lemma {:induction false} IdsRewritten(reg: Reg, cmd: Command)
    requires Validated(reg, cmd).Ok?
    ensures match (cmd, Validated(reg, cmd).value)
      case (MoveToken(token, _, _, scene), MoveToken(out, _, _, _)) =>
        Resolve(reg, TokenKind, token, scene) == Some(out)
      case (MoveActorTo(actor, _, _, scene, _, _, _), MoveActorTo(out, _, _, outScene, _, _, _)) =>
        Rewritten(reg, ActorKind, actor, None, out) && SceneRewritten(reg, scene, outScene)
      case (ActivateScene(scene), ActivateScene(out)) => Resolve(reg, SceneKind, scene, None) == Some(out)
      case (UpdateActor(actor, _), UpdateActor(out, _)) => Resolve(reg, ActorKind, actor, None) == Some(out)
      case (HighlightObject(name), HighlightObject(out)) =>
        if Resolve(reg, TokenKind, name, None).Some? then Resolve(reg, TokenKind, name, None) == Some(out)
        else Rewritten(reg, ActorKind, name, None, out)
      case (SpawnToken(scene, actor, _, _, _), SpawnToken(outScene, out, _, _, _)) =>
        Resolve(reg, SceneKind, scene, None) == Some(outScene) && Resolve(reg, ActorKind, actor, None) == Some(out)
      case (DeleteToken(scene, token), DeleteToken(outScene, out)) =>
        Resolve(reg, SceneKind, scene, None) == Some(outScene)
          && Rewritten(reg, TokenKind, token, Some(outScene), out)
      case (DeleteActor(actor), DeleteActor(out)) => Resolve(reg, ActorKind, actor, None) == Some(out)
      case (DeleteScene(scene), DeleteScene(out)) => Resolve(reg, SceneKind, scene, None) == Some(out)
      case (ReadToken(scene, token), ReadToken(outScene, out)) =>
        scene.Some? && outScene.Some? && Resolve(reg, SceneKind, scene.value, None) == outScene
          && Rewritten(reg, TokenKind, token, outScene, out)
      case (ReadActor(actor), ReadActor(out)) => Resolve(reg, ActorKind, actor, None) == Some(out)
      case (CreateNote(scene, _, _, _), CreateNote(out, _, _, _)) => SceneRewritten(reg, scene, out)
      case (GiveItem(actor, _, _), GiveItem(out, _, _)) => Rewritten(reg, ActorKind, actor, None, out)
      case (ApplyDamage(actor, _), ApplyDamage(out, _)) => Rewritten(reg, ActorKind, actor, None, out)
      case (CreateScene(_, _, _, _), out) => out == cmd
      case (CreateActor(_, _, _, _, _), out) => out == cmd
      case (ReadActiveScene, out) => out == cmd
      case (CreateJournal(_), out) => out == cmd
      case (UpdateJournal(_, _, _), out) => out == cmd
      case _ => false
  {
    hide Resolve, Text.Strip, Allowed, ForbiddenKey, BadPatch, BadPlace, Blank;
  }

  // ---- Refusals ---------------------------------------------------------------------------------------------

  /** The name that a field of the command gives, its kind, and the scene under which it is looked up. */
  function NamedIn(cmd: Command, field: string): Option<(Kind, string, Option<string>)> {
    match (cmd, field)
    case (MoveToken(token, _, _, scene), "token_id") => Some((TokenKind, token, scene))
    case (ActivateScene(scene), "scene_id") => Some((SceneKind, scene, None))
    case (UpdateActor(actor, _), "actor_id") => Some((ActorKind, actor, None))
    case (SpawnToken(scene, _, _, _, _), "scene_id") => Some((SceneKind, scene, None))
    case (SpawnToken(_, actor, _, _, _), "actor_id") => Some((ActorKind, actor, None))
    case (DeleteToken(scene, _), "scene_id") => Some((SceneKind, scene, None))
    case (DeleteActor(actor), "actor_id") => Some((ActorKind, actor, None))
    case (DeleteScene(scene), "scene_id") => Some((SceneKind, scene, None))
    case (ReadToken(Some(scene), _), "scene_id") => Some((SceneKind, scene, None))
    case (ReadActor(actor), "actor_id") => Some((ActorKind, actor, None))
    case _ => None
  }

  function TextIn(cmd: Command, field: string): Option<string> {
    match (cmd, field)
    case (CreateScene(name, _, _, _), "name") => Some(name)
    case (CreateActor(name, _, _, _, _), "name") => Some(name)
    case (CreateActor(_, actorType, _, _, _), "actor_type") => Some(actorType)
    case (CreateJournal(title), "title") => Some(title)
    case (UpdateJournal(journal, _, _), "journal_id") => Some(journal)
    case (CreateNote(_, _, _, text), "text") => Some(text)
    case (GiveItem(_, itemKey, _), "item_key") => Some(itemKey)
    case _ => None
  }

  function NumberIn(cmd: Command, field: string): Option<int> {
    match (cmd, field)
    case (MoveToken(_, x, _, _), "x") => Some(x)
    case (MoveToken(_, _, y, _), "y") => Some(y)
    case (MoveActorTo(_, _, _, _, Some((x, _)), _, _), "x") => Some(x)
    case (MoveActorTo(_, _, _, _, Some((_, y)), _, _), "y") => Some(y)
    case (SpawnToken(_, _, x, _, _), "x") => Some(x)
    case (SpawnToken(_, _, _, y, _), "y") => Some(y)
    case (CreateNote(_, x, _, _), "x") => Some(x)
    case (CreateNote(_, _, y, _), "y") => Some(y)
    case (CreateScene(_, width, _, _), "width") => Some(width)
    case (CreateScene(_, _, height, _), "height") => Some(height)
    case (CreateScene(_, _, _, grid), "grid") => Some(grid)
    case (GiveItem(_, _, qty), "qty") => Some(qty)
    case (ApplyDamage(_, amount), "amount") => Some(amount)
    case _ => None
  }

  /** What the error says of the command is so. */
  ghost predicate Deserved(reg: Reg, cmd: Command, e: Error) {
    match e.code
    case Unknown(kind) =>
      var named := NamedIn(cmd, e.field);
      named.Some? && named.value.0 == kind && Resolve(reg, kind, named.value.1, named.value.2).None?
    case BadCoordinates =>
      var value := NumberIn(cmd, e.field);
      e.field in {"x", "y"} && value.Some? && !(0 <= value.value <= 20_000)
    case EmptyField =>
      var text := TextIn(cmd, e.field);
      text.Some? && Text.Strip(text.value) == ""
    case NonPositive =>
      var number := NumberIn(cmd, e.field);
      number.Some? && (if cmd.ApplyDamage? then number.value < 0 else number.value <= 0)
    case ForbiddenPatchKey =>
      cmd.UpdateActor? &&
        exists i | 0 <= i < |cmd.patch| :: e.field == "patch." + cmd.patch[i].0 && !Allowed(cmd.patch[i].0)
    case EmptyPatch =>
      (cmd.UpdateActor? && cmd.patch == []) || (cmd.UpdateJournal? && cmd.newTitle.None? && cmd.newContent.None?)
    case MissingTarget => cmd.MoveActorTo? && cmd.at.None? && !Given(cmd.target) && !Given(cmd.targetId)
      && !(Given(cmd.direction) && cmd.distanceFt.Some? && cmd.distanceFt.value != 0)
    case Schema => cmd.ReadToken? && cmd.scene.None?
  }

  lemma {:induction false} ForbiddenIsThere(patch: Patch)
    requires ForbiddenKey(patch).Some?
    ensures var e := ForbiddenKey(patch).value;
      e.code == ForbiddenPatchKey
        && exists i | 0 <= i < |patch| :: e.field == "patch." + patch[i].0 && !Allowed(patch[i].0)
  {
    if Allowed(patch[0].0) {
      ForbiddenIsThere(patch[1..]);
      assert forall i | 0 <= i < |patch| - 1 :: patch[1..][i] == patch[i + 1];
    }
  }

  /** Whatever a refused command is refused for, it is so, and of the field that is named. */
  lemma {:induction false} RefusalDeserved(reg: Reg, cmd: Command)
    requires Validated(reg, cmd).Err?
    ensures Deserved(reg, cmd, Validated(reg, cmd).error)
  {
    assert Text.Strip("") == "";
    hide Resolve, Text.Strip, Allowed, ForbiddenKey;
    if cmd.UpdateActor? {
      UpdateRefusalDeserved(reg, cmd);
    }
  }

  lemma UpdateRefusalDeserved(reg: Reg, cmd: Command)
    requires cmd.UpdateActor? && Validated(reg, cmd).Err?
    ensures Deserved(reg, cmd, Validated(reg, cmd).error)
  {
    hide Resolve, Allowed, ForbiddenKey;
    if ForbiddenKey(cmd.patch).Some? {
      ForbiddenIsThere(cmd.patch);
    }
  }

  lemma {:induction false} OnlyIdsChange(reg: Reg, cmd: Command)
    requires Validated(reg, cmd).Ok?
    ensures Unaddressed(Validated(reg, cmd).value) == Unaddressed(cmd)
  {
    hide Resolve, Text.Strip, Allowed, ForbiddenKey;
  }

  lemma {:induction false} ReliableStill(reg: Reg, cmd: Command)
    requires Validated(reg, cmd).Ok? && Reliable(cmd)
    ensures Reliable(Validated(reg, cmd).value)
  {
    hide Resolve, Text.Strip, Allowed, ForbiddenKey;
  }

  /** A command is accepted exactly when what must resolve does and its fields are within the rules; nothing but ids
      changes in it. */
  lemma {:induction false} AcceptedIff(reg: Reg, cmd: Command)
    ensures Validated(reg, cmd).Ok? <==> Known(reg, cmd) && Reliable(cmd)
    ensures Validated(reg, cmd).Ok? ==>
      Unaddressed(Validated(reg, cmd).value) == Unaddressed(cmd) && Reliable(Validated(reg, cmd).value)
  {
    hide Validated, Known, Reliable, Unaddressed;
    AcceptsIff(reg, cmd);
    if Validated(reg, cmd).Ok? {
      OnlyIdsChange(reg, cmd);
      ReliableStill(reg, cmd);
    }
  }

  /** The ids that the check resolved strictly. */
  function StrictIds(cmd: Command): set<Id> {
    match cmd
    case MoveToken(token, _, _, _) => {(TokenKind, token)}
    case ActivateScene(scene) => {(SceneKind, scene)}
    case UpdateActor(actor, _) => {(ActorKind, actor)}
    case SpawnToken(scene, actor, _, _, _) => {(SceneKind, scene), (ActorKind, actor)}
    case DeleteToken(scene, _) => {(SceneKind, scene)}
    case DeleteActor(actor) => {(ActorKind, actor)}
    case DeleteScene(scene) => {(SceneKind, scene)}
    case ReadToken(scene, _) => if scene.Some? then {(SceneKind, scene.value)} else {}
    case ReadActor(actor) => {(ActorKind, actor)}
    case _ => {}
  }

  /** Each strictly resolved field of a validated command names a live entry. */
  lemma StrictFieldsLive(reg: Reg, cmd: Command)
    requires forall kind :: Agrees(reg, kind)
    requires Validated(reg, cmd).Ok?
    ensures StrictIds(Validated(reg, cmd).value) <= reg.entries.Keys
  {
    hide Text.Strip, Allowed, ForbiddenKey, Resolve;
    assert Agrees(reg, SceneKind) && Agrees(reg, ActorKind) && Agrees(reg, TokenKind);
    match cmd {
      case MoveToken(token, _, _, scene) => ResolveIsLive(reg, TokenKind, token, scene);
      case ActivateScene(scene) => ResolveIsLive(reg, SceneKind, scene, None);
      case UpdateActor(actor, _) => ResolveIsLive(reg, ActorKind, actor, None);
      case SpawnToken(scene, actor, _, _, _) =>
        ResolveIsLive(reg, SceneKind, scene, None);
        ResolveIsLive(reg, ActorKind, actor, None);
      case DeleteToken(scene, _) => ResolveIsLive(reg, SceneKind, scene, None);
      case DeleteActor(actor) => ResolveIsLive(reg, ActorKind, actor, None);
      case DeleteScene(scene) => ResolveIsLive(reg, SceneKind, scene, None);
      case ReadToken(scene, _) => ResolveIsLive(reg, SceneKind, scene.value, None);
      case ReadActor(actor) => ResolveIsLive(reg, ActorKind, actor, None);
      case _ =>
    }
  }

  // ---- What an accepted patch can touch -----------------------------------------------------------------

  const ROOTS := ["abilities", "attributes", "details", "skills", "spells", "traits", "currency"]

  /** The path starts with a key that begins with `name` or `img`, or leads into one of the roots of `system`. */
  predicate Rooted(path: Path) {
    "name" <= path[0] || "img" <= path[0] || (|path| >= 2 && path[0] == "system" && path[1] in ROOTS)
  }

  lemma {:induction false} SplitFirst(a: string, b: string)
    requires '.' !in a
    ensures Text.Split(a + "." + b) == [a] + Text.Split(b)
  {
    if a == "" {
      assert a + "." + b == "." + b;
    } else {
      var s := a + "." + b;
      assert s[1..] == a[1..] + "." + b;
      SplitFirst(a[1..], b);
      assert a == [a[0]] + a[1..] && s[0] != '.';
    }
  }

  lemma {:induction false} PrefixOfFirst(r: string, key: string)
    requires '.' !in r
    ensures r <= Text.Split(key)[0] <==> r <= key
  {
    if r != "" && key != "" {
      assert key == [key[0]] + key[1..] && r == [r[0]] + r[1..];
      PrefixOfFirst(r[1..], key[1..]);
      if key[0] != '.' {
        assert Text.Split(key)[0] == [key[0]] + Text.Split(key[1..])[0];
      }
    }
  }

  lemma AllowsUnder(root: string, key: string)
    requires '.' !in root && root != ""
    ensures Allows("system." + root + ".", key) <==>
      |PathOf(key)| >= 2 && PathOf(key)[0] == "system" && PathOf(key)[1] == root
  {
    var dotless := "system." + root;
    assert "system" + "." + root == dotless;
    SplitFirst("system", root);
    assert PathOf(dotless) == ["system", root];
    CoversIsPathPrefix(dotless, key);
    assert ("system." + root + ".")[..|dotless|] == dotless;
    assert dotless[|dotless| - 1] == root[|root| - 1];
    assert StripDots("system." + root + ".") == StripDots(dotless) == dotless;
    var p := PathOf(key);
    assert ["system", root] <= p <==> |p| >= 2 && p[0] == "system" && p[1] == root;
  }

  lemma AllowsPlain(name: string, key: string)
    requires '.' !in name && name != ""
    ensures Allows(name, key) <==> name <= PathOf(key)[0]
  {
    PrefixOfFirst(name, key);
  }

  /** The allow-list, read as paths. The entries `name` and `img` end without a dot and so allow every key that begins
      with them. */
  lemma AllowedIffRooted(key: string)
    ensures Allowed(key) <==> Rooted(PathOf(key))
  {
    AllowsPlain("name", key);
    AllowsPlain("img", key);
    assert ALLOW[0] == "name" && ALLOW[1] == "img";
    forall i | 0 <= i < |ROOTS|
      ensures Allows(ALLOW[i + 2], key) <==>
        |PathOf(key)| >= 2 && PathOf(key)[0] == "system" && PathOf(key)[1] == ROOTS[i]
    {
      AllowEntry(i);
      AllowsUnder(ROOTS[i], key);
    }
    if Allowed(key) {
      var i :| 0 <= i < |ALLOW| && Allows(ALLOW[i], key);
      if i >= 2 {
        assert PathOf(key)[1] == ROOTS[i - 2];
      }
    }
    if Rooted(PathOf(key)) {
      var path := PathOf(key);
      if "name" <= path[0] {
        assert Allows(ALLOW[0], key);
      } else if "img" <= path[0] {
        assert Allows(ALLOW[1], key);
      } else {
        var i :| 0 <= i < |ROOTS| && ROOTS[i] == path[1];
        assert Allows(ALLOW[i + 2], key);
      }
    }
  }

  lemma AllowEntry(i: nat)
    requires i < |ROOTS|
    ensures ALLOW[i + 2] == "system." + ROOTS[i] + "." && '.' !in ROOTS[i] && ROOTS[i] != ""
  {
    assert i == 0 || i == 1 || i == 2 || i == 3 || i == 4 || i == 5 || i == 6;
  }

  ghost predicate Confined(out: map<string, Tree>) {
    forall k | k in out :: "name" <= k || "img" <= k ||
      (k == "system" && out[k].Dict? && forall r | r in out[k].props :: r in ROOTS)
  }

  lemma PutConfined(out: map<string, Tree>, key: string, v: Tree)
    requires Confined(out) && Rooted(PathOf(key))
    ensures Confined(Put(out, key, v))
  {
    var path := PathOf(key);
    if '.' in key && path[0] == "system" {
      assert "system"[0] == 's' && "name"[0] == 'n' && "img"[0] == 'i';
      var next := if "system" in out then out["system"] else Dict(map[]);
      PutPathKeys(next.props, path[1..], v);
      assert Put(out, key, v)["system"] == Dict(PutPath(next.props, path[1..], v));
    }
  }

  lemma {:induction false} ExpandConfined(patch: Patch)
    requires forall i | 0 <= i < |patch| :: Rooted(PathOf(patch[i].0))
    ensures Confined(Expand(patch))
    decreases |patch|
  {
    if patch != [] {
      var n := |patch| - 1;
      ExpandConfined(patch[..n]);
      PutConfined(Expand(patch[..n]), patch[n].0, patch[n].1);
    }
  }

  lemma {:induction false} AcceptedKeys(patch: Patch)
    requires ForbiddenKey(patch).None?
    ensures forall i | 0 <= i < |patch| :: Rooted(PathOf(patch[i].0))
    decreases |patch|
  {
    if patch != [] {
      AllowedIffRooted(patch[0].0);
      AcceptedKeys(patch[1..]);
    }
  }

  /** Not reached by keys that begin with `name` or `img`, nor inside the roots of `system`, nor `system` as a whole. */
  predicate Outside(p: Path) {
    !("name" <= p[0]) && !("img" <= p[0]) && (p[0] == "system" ==> |p| >= 2 && p[1] !in ROOTS)
  }

  /** Whatever an accepted `update_actor` patch holds, also with keys inside one another, the rest of the actor stays as
      it is. */
  lemma AcceptedUpdateConfined(reg: Reg, cmd: Command, doc: Tree, p: Path)
    requires cmd.UpdateActor? && Validated(reg, cmd).Ok? && doc.Dict? && Outside(p)
    ensures GetAt(Update(doc, cmd.patch), p) == GetAt(doc, p)
  {
    AcceptedKeys(cmd.patch);
    ExpandConfined(cmd.patch);
    var laid, updated := Dict(Expand(cmd.patch)), Update(doc, cmd.patch);
    if p[0] == "system" && "system" in laid.props {
      assert p[1..][0] == p[1] && p[1] !in laid.props["system"].props;
      if "system" in doc.props {
        assert updated.props["system"] == Merge(doc.props["system"], laid.props["system"]);
      } else {
        assert updated.props["system"] == laid.props["system"];
      }
    }
  }

  // ---- A target that moves --------------------------------------------------------------------------------

  /** In a registry that two registrations reach, an actor named `g` with id `x` and a token `t` named `x`: the target
      `g` is validated to `x`, and that to `t`. */
  lemma {:induction false} HighlightMoves() returns (ops: seq<Op>)
    ensures NoMoves(EMPTY, ops)
    ensures Highlighted(Run(EMPTY, ops), "g") == "x" && Highlighted(Run(EMPTY, ops), "x") == "t"
  {
    LetterNormal("g");
    LetterNormal("x");
    LetterNormal("t");
    var actor, token := Registering((ActorKind, "x"), "g", None, ["g", "x"]),
      Registering((TokenKind, "t"), "x", Some("s"), ["x", "t"]);
    ops := [actor, token];
    RegisteredAs(EMPTY, actor.id, "g", None);
    var one := Apply(EMPTY, actor);
    RegisteredAs(one, token.id, "x", Some("s"));
    var two := Apply(one, token);
    assert ops[1..] == [token] && [token][1..] == [];
    assert Run(one, [token]) == Run(two, []) == two;
    assert NoMoves(two, []) && NoMoves(one, [token]);
    HighlightsToken(two);
  }

  lemma HighlightsToken(reg: Reg)
    requires reg.entries.Keys == {(ActorKind, "x"), (TokenKind, "t")}
    requires reg.index == map[Slot(ActorKind, None, "g") := "x", Slot(ActorKind, None, "x") := "x",
                              Slot(TokenKind, Some("s"), "x") := "t", Slot(TokenKind, Some("s"), "t") := "t"]
    requires Normalise("g") == "g" && Normalise("x") == "x"
    ensures Highlighted(reg, "g") == "x" && Highlighted(reg, "x") == "t"
  {
    assert Matches(reg.index, "g") == {};
    assert Matches(reg.index, "x") == {Slot(TokenKind, Some("s"), "x")};
  }

  /** Registering an unknown id under its name and itself, where both are free. */
  lemma RegisteredAs(reg: Reg, id: Id, name: string, scene: Option<string>)
    requires GoodArguments(id, name, scene) && id !in reg.entries && Normalise(name) == name && Normalise(id.1) == id.1
    requires SlotOf(id.0, scene, name) !in reg.index && SlotOf(id.0, scene, id.1) !in reg.index
    ensures Registered(reg, id, name, scene, [name, id.1]).0 ==
      Reg(reg.entries[id := Entry(name, {name, id.1}, scene)],
          reg.index[SlotOf(id.0, scene, name) := id.1][SlotOf(id.0, scene, id.1) := id.1])
  {
    var entered := Enter(reg, id, name, scene);
    var once := Aliased(entered, id, name).0;
    assert [name, id.1][1..] == [id.1] && [id.1][1..] == [];
    assert once.entries[id].aliases == {name};
    assert AddAll(entered, id, [name, id.1]) == AddAll(once, id, [id.1]);
    var (last, out) := Aliased(once, id, id.1);
    assert last.entries[id].aliases == {name, id.1};
    assert AddAll(last, id, []) == (last, Outcome.Done);
    assert last.entries == reg.entries[id := Entry(name, {name, id.1}, scene)];
  }
}

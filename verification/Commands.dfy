/** The commands of `models/commands.py`, with the fields the pipeline looks at. */
module Commands {
  import opened Wrappers
  import opened Dotted

  datatype Command =
    | MoveToken(token: string, x: int, y: int, scene: Option<string>)
    | MoveActorTo(actor: string, target: Option<string>, targetId: Option<string>, scene: Option<string>,
                  at: Option<(int, int)>, distanceFt: Option<int>, direction: Option<string>)
    | ActivateScene(sceneId: string)
    | UpdateActor(actor: string, patch: Patch)
    | HighlightObject(targetName: string)
    | CreateScene(name: string, width: int, height: int, grid: int)
    | SpawnToken(sceneId: string, actor: string, x: int, y: int, tokenName: Option<string>)
    | CreateActor(name: string, actorType: string, system: Patch, img: Option<string>, aliases: seq<string>)
    | DeleteToken(sceneId: string, token: string)
    | DeleteActor(actor: string)
    | DeleteScene(sceneId: string)
    | ReadToken(scene: Option<string>, token: string)
    | ReadActor(actor: string)
    | ReadActiveScene
    | CreateJournal(title: string)
    | UpdateJournal(journal: string, newTitle: Option<string>, newContent: Option<string>)
    | CreateNote(scene: Option<string>, x: int, y: int, text: string)
    | GiveItem(actor: string, itemKey: string, qty: int)
    | ApplyDamage(actor: string, amount: int)
}

/**
 * The target collection the targets register themselves in (`Bullseye.Targets`), as far as
 * their setup code uses it: each `Add` appends one definition.
 */
module Targets {
  import opened Wrappers
  import opened ProjectRecords

  /** An item a fan-out target runs its action for. */
  datatype Item = TestItem(test: TestProject) | PublishItem(publish: PublishProject)

  /** What a target does once its dependencies are done. */
  datatype Body =
    | NoAction                        // aggregation target: a name for its dependencies
    | Action                          // run the action once
    | ForEach(items: seq<Item>)       // run the action once per item

  datatype TargetDef = TargetDef(name: string, description: Option<string>, dependsOn: seq<string>, body: Body)
  {
    predicate HasAction() { !body.NoAction? }
  }

  class TargetCollection {
    var definitions: seq<TargetDef>

    constructor ()
      ensures definitions == []
    {
      definitions := [];
    }

    /** `targets.Add(...)`, any overload. */
    method Add(definition: TargetDef)
      modifies this
      ensures definitions == old(definitions) + [definition]
    {
      definitions := definitions + [definition];
    }
  }

  /** The names defined in `defs`. */
  function Names(defs: seq<TargetDef>): set<string>
  {
    set i | 0 <= i < |defs| :: defs[i].name
  }

  /** Dependencies named in `defs` that no definition in `defs` provides. */
  function Unresolved(defs: seq<TargetDef>): set<string>
  {
    set i, j | 0 <= i < |defs| && 0 <= j < |defs[i].dependsOn| && defs[i].dependsOn[j] !in Names(defs)
      :: defs[i].dependsOn[j]
  }
}

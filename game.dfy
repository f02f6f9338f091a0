/** Stage sequencing (game.py). */
module Session {
  import opened Settings
  import opened Arith

  /** The stage to play after clearing stage i of n: the next one, or the first after the last. */
  function NextStage(i: int, n: int): (j: int)
    requires 0 <= i < n
    ensures 0 <= j < n
    ensures j == (i + 1) % n
  {
    var k := i + 1;
    if k >= n then 0 else k
  }

  /** The stage index after k consecutive clears starting from stage i of n. */
  function AfterClears(i: int, n: int, k: nat): (j: int)
    requires 0 <= i < n
    ensures 0 <= j < n
  {
    if k == 0 then i else NextStage(AfterClears(i, n, k - 1), n)
  }

  /** k consecutive clears advance the index by k, counted round the list of stages. */
  lemma {:induction false} AfterClearsModular(i: int, n: int, k: nat)
    requires 0 <= i < n
    ensures AfterClears(i, n, k) == (i + k) % n
  {
    if k == 0 {
      DivModUnique(i, n, 0, i);
    } else {
      AfterClearsModular(i, n, k - 1);
      ModSucc(i + k - 1, n);
    }
  }

  /** After as many clears as there are stages, play is back on the stage it started from. */
  lemma FullRoundReturns(i: int, n: int)
    requires 0 <= i < n
    ensures AfterClears(i, n, n) == i
  {
    AfterClearsModular(i, n, n);
    DivModUnique(i + n, n, 1, i);
  }

  /** A stage, identified by the map file it was built from. */
  class Stage {
    const fileName: string

    constructor (fileName: string)
      ensures this.fileName == fileName
    {
      this.fileName := fileName;
    }
  }

  class Game {
    var stageStateNumber: int
    var stage: Stage

    /** The stage index names an entry of the stage-file list. */
    ghost predicate Valid()
      reads this
    {
      0 <= stageStateNumber < |StageFileNames|
    }

    /** Game.__init__: start at stage 0 and build it. */
    constructor ()
      ensures Valid()
      ensures stageStateNumber == 0
      ensures fresh(stage) && stage.fileName == StageFileNames[0]
    {
      stageStateNumber := 0;
      stage := new Stage(StageFileNames[0]);
    }

    /** stage_init: build the stage whose file the current index names. */
    method StageInit()
      requires Valid()
      modifies this`stage
      ensures fresh(stage) && stage.fileName == StageFileNames[stageStateNumber]
    {
      stage := new Stage(StageFileNames[stageStateNumber]);
    }

    /**
     * check_stage_clear with the stage's clear flag as input: a cleared stage
     * moves play to the next stage, wrapping to the first after the last,
     * and builds it; otherwise nothing changes.
     */
    method CheckStageClear(isClear: bool)
      requires Valid()
      modifies this
      ensures Valid()
      ensures isClear ==> stageStateNumber == NextStage(old(stageStateNumber), |StageFileNames|)
      ensures isClear ==> fresh(stage) && stage.fileName == StageFileNames[stageStateNumber]
      ensures !isClear ==> stageStateNumber == old(stageStateNumber) && stage == old(stage)
    {
      if isClear {
        stageStateNumber := stageStateNumber + 1;
        if stageStateNumber >= |StageFileNames| {
          stageStateNumber := 0;
        }
        StageInit();
      }
    }
  }
}

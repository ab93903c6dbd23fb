/**
 * The two fixed prompt pools of the server and the random pick from a pool.
 * The pools are never changed after start-up.
 */
module Content {
  /** The truth questions, in the server's order. */
  const TruthQuestions: seq<string> := [
    "你最近一次撒谎是什么时候？",
    "你最喜欢的电影是什么？为什么？",
    "你做过最疯狂的事情是什么？",
    "你最大的秘密是什么？",
    "你最喜欢的食物是什么？"
  ]

  /** The dare actions, in the server's order. */
  const DareActions: seq<string> := [
    "模仿一个动物叫声",
    "做10个俯卧撑",
    "唱一首歌",
    "跳一段舞",
    "做一个鬼脸"
  ]

  /** The pool a `choose` draws from: truth exactly for the string "truth", dare for anything else. */
  function PoolFor(choice: string): (pool: seq<string>)
    ensures |pool| == 5
    ensures choice == "truth" ==> pool == TruthQuestions
    ensures choice != "truth" ==> pool == DareActions
  {
    if choice == "truth" then TruthQuestions else DareActions
  }

  /**
   * The random pick: `draw` stands for `Math.floor(Math.random() * pool.length)`,
   * which is always an index of the pool when the pool is non-empty.
   */
  function GetRandomItem(pool: seq<string>, draw: nat): (item: string)
    requires draw < |pool|
    ensures item in pool
  {
    pool[draw]
  }

  /** The two pools share no entry, so a drawn prompt tells which category it came from. */
  lemma PoolsDisjoint()
    ensures forall q :: q in TruthQuestions ==> q !in DareActions
  {
  }
}

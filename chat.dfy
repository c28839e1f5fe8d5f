/** The chat-history store: an append-only list of history entries. */
module ChatStoreModel {

  /** `H` stands for the chat-history entry type, whose fields this store never inspects. */
  class ChatStore<H> {
    /** The store's current value, starting as the empty list. */
    var history: seq<H>

    constructor ()
      ensures history == []
    {
      history := [];
    }

    /** Appends `h` in place: it becomes the last entry, earlier entries are untouched. */
    method Push(h: H)
      modifies this
      ensures history == old(history) + [h]
      ensures |history| == |old(history)| + 1
      ensures history[|history| - 1] == h
      ensures history[..|old(history)|] == old(history)
    {
      history := history + [h];
    }

    /** Re-publishes the current value; the history is unchanged. */
    method Refresh()
      modifies this
      ensures history == old(history)
    {
      history := history;
    }
  }
}

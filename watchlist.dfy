/**
 * components/WatchlistButton.tsx: the button that adds a token to the
 * stored watchlist or takes it off. The stored list (browser storage, read
 * and written as JSON) is a field here; the button's flag is read from it
 * when the button appears and flipped by every toggle.
 */
module Watchlist {
  import opened Types
  import Seqs

  /** `watchlist.some(t => t.id === id)`. */
  predicate Listed(watchlist: seq<Token>, id: string) {
    exists i :: 0 <= i < |watchlist| && watchlist[i].id == id
  }

  /** `watchlist.filter(t => t.id !== id)`. */
  function WithoutId(watchlist: seq<Token>, id: string): (r: seq<Token>)
    ensures !Listed(r, id)
  {
    Seqs.Filter(watchlist, (t: Token) => t.id != id)
  }

  class WatchlistButton {
    /** The list held in browser storage. */
    var watchlist: seq<Token>
    const token: Token
    var isInWatchlist: bool

    /** The flag agrees with the stored list. */
    predicate Consistent()
      reads this
    {
      isInWatchlist == Listed(watchlist, token.id)
    }

    /** The button appears: the flag is read from the stored list. */
    constructor (stored: seq<Token>, token: Token)
      ensures this.token == token && watchlist == stored
      ensures isInWatchlist == Listed(stored, token.id)
      ensures Consistent()
    {
      this.token := token;
      watchlist := stored;
      isInWatchlist := Listed(stored, token.id);
    }

    /**
     * `toggleWatchlist`: when the flag is set, every entry with the
     * token's id is removed; otherwise the token is appended. The flag
     * flips either way, and it keeps agreeing with the list.
     */
    method Toggle()
      modifies this
      ensures old(isInWatchlist) ==> watchlist == WithoutId(old(watchlist), token.id) && !isInWatchlist
      ensures !old(isInWatchlist) ==> watchlist == old(watchlist) + [token] && isInWatchlist
      ensures old(Consistent()) ==> Consistent()
    {
      if isInWatchlist {
        watchlist := WithoutId(watchlist, token.id);
        isInWatchlist := false;
      } else {
        watchlist := watchlist + [token];
        isInWatchlist := true;
        assert watchlist[|watchlist| - 1] == token;
      }
    }
  }

  /** Removing keeps exactly the entries with other ids, duplicates included, in their order. */
  lemma WithoutIdRules(watchlist: seq<Token>, id: string)
    ensures forall t :: t in WithoutId(watchlist, id) <==> t in watchlist && t.id != id
    ensures Seqs.CountsKept(WithoutId(watchlist, id), watchlist, (t: Token) => t.id != id)
    ensures Seqs.IsSubseq(WithoutId(watchlist, id), watchlist)
  {
    Seqs.FilterKeeps(watchlist, (t: Token) => t.id != id);
  }

  /** Adding a token whose id was absent and then removing it gives back the list. */
  lemma AddThenRemove(watchlist: seq<Token>, token: Token)
    requires !Listed(watchlist, token.id)
    ensures WithoutId(watchlist + [token], token.id) == watchlist
  {
    var p := (t: Token) => t.id != token.id;
    Seqs.FilterAppend(watchlist, [token], p);
    Seqs.FilterAll(watchlist, p);
  }
}

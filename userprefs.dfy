/** The user preferences context (src/contexts/UserPreferencesContext.jsx):
    three lists of item keys, liked, disliked and on the watchlist, each
    changed by a toggle. */
module UserPrefs {
  import Seqs

  /** The key of an item: its type, an underscore and its id. */
  function ItemKey(itemId: string, itemType: string): (k: string)
    ensures |k| == |itemType| + 1 + |itemId|
    ensures k[..|itemType|] == itemType && k[|itemType|] == '_' && k[|itemType| + 1..] == itemId
  {
    itemType + "_" + itemId
  }

  /** `list.filter(id => id !== key)`. */
  function Without(s: seq<string>, key: string): (r: seq<string>)
    ensures forall x :: x in r <==> x in s && x != key
    ensures Seqs.NoDups(s) ==> Seqs.NoDups(r)
  {
    var r := Seqs.Filter(s, id => id != key);
    assert Seqs.NoDups(s) ==> Seqs.NoDups(r) by {
      if Seqs.NoDups(s) {
        WithoutNoDups(s, key);
      }
    }
    r
  }

  lemma {:induction false} WithoutNoDups(s: seq<string>, key: string)
    requires Seqs.NoDups(s)
    ensures Seqs.NoDups(Seqs.Filter(s, id => id != key))
  {
    if s != [] {
      assert Seqs.NoDups(s[1..]) by {
        forall i, j | 0 <= i < j < |s[1..]| ensures s[1..][i] != s[1..][j] {
          assert s[1..][i] == s[i + 1] && s[1..][j] == s[j + 1];
        }
      }
      WithoutNoDups(s[1..], key);
      var rest := Seqs.Filter(s[1..], id => id != key);
      assert s[0] !in s[1..] by {
        forall m | 0 <= m < |s[1..]| ensures s[1..][m] != s[0] {
          assert s[1..][m] == s[m + 1];
        }
      }
      assert s[0] !in rest;
      if s[0] != key {
        assert Seqs.Filter(s, id => id != key) == [s[0]] + rest;
      }
    }
  }

  /** The three lists. */
  datatype Prefs = Prefs(likes: seq<string>, dislikes: seq<string>, watchlist: seq<string>)

  /** Likes and dislikes have no duplicates and nothing is both liked and
      disliked. */
  predicate Consistent(p: Prefs) {
    Seqs.NoDups(p.likes) && Seqs.NoDups(p.dislikes) && forall k :: k in p.likes ==> k !in p.dislikes
  }

  /** `toggleLike`: a liked key is unliked; any other key is liked and
      loses its dislike. */
  function ToggleLike(p: Prefs, key: string): Prefs {
    if key in p.likes then p.(likes := Without(p.likes, key))
    else Prefs(p.likes + [key], Without(p.dislikes, key), p.watchlist)
  }

  /** `toggleDislike`, the mirror image. */
  function ToggleDislike(p: Prefs, key: string): Prefs {
    if key in p.dislikes then p.(dislikes := Without(p.dislikes, key))
    else Prefs(Without(p.likes, key), p.dislikes + [key], p.watchlist)
  }

  /** `toggleWatchlist`. */
  function ToggleWatchlist(p: Prefs, key: string): Prefs {
    if key in p.watchlist then p.(watchlist := Without(p.watchlist, key))
    else p.(watchlist := p.watchlist + [key])
  }

  lemma AppendNoDups(s: seq<string>, key: string)
    requires Seqs.NoDups(s) && key !in s
    ensures Seqs.NoDups(s + [key])
  {
    var r := s + [key];
    forall i, j | 0 <= i < j < |r| ensures r[i] != r[j] {
      if j == |s| {
        assert r[i] == s[i];
      } else {
        assert r[i] == s[i] && r[j] == s[j];
      }
    }
  }

  /** A like toggle flips whether the key is liked; liking a key removes
      its dislike while unliking it leaves the dislikes alone; every other
      key keeps its like, its dislike and the watchlist stays. The lists
      stay consistent. */
  lemma ToggleLikeSpec(p: Prefs, key: string, other: string)
    requires other != key
    ensures var q := ToggleLike(p, key);
      (key in q.likes <==> key !in p.likes) &&
      (key !in p.likes ==> key !in q.dislikes) &&
      (key in p.likes ==> q.dislikes == p.dislikes) &&
      (other in q.likes <==> other in p.likes) && (other in q.dislikes <==> other in p.dislikes) &&
      q.watchlist == p.watchlist
  {
  }

  /** A like toggle keeps consistent lists consistent. */
  lemma ToggleLikeConsistent(p: Prefs, key: string)
    requires Consistent(p)
    ensures Consistent(ToggleLike(p, key))
  {
    if key !in p.likes {
      AppendNoDups(p.likes, key);
    }
  }

  /** The same for a dislike toggle. */
  lemma ToggleDislikeSpec(p: Prefs, key: string, other: string)
    requires other != key
    ensures var q := ToggleDislike(p, key);
      (key in q.dislikes <==> key !in p.dislikes) &&
      (key !in p.dislikes ==> key !in q.likes) &&
      (key in p.dislikes ==> q.likes == p.likes) &&
      (other in q.likes <==> other in p.likes) && (other in q.dislikes <==> other in p.dislikes) &&
      q.watchlist == p.watchlist
  {
  }

  /** A dislike toggle keeps consistent lists consistent. */
  lemma ToggleDislikeConsistent(p: Prefs, key: string)
    requires Consistent(p)
    ensures Consistent(ToggleDislike(p, key))
  {
    if key !in p.dislikes {
      AppendNoDups(p.dislikes, key);
    }
  }

  /** A watchlist toggle flips the key's membership and changes nothing
      else; toggling twice restores the list exactly when the key was
      absent, and restores its elements when it was present. */
  lemma ToggleWatchlistSpec(p: Prefs, key: string, other: string)
    requires other != key
    ensures var q := ToggleWatchlist(p, key);
      (key in q.watchlist <==> key !in p.watchlist) && (other in q.watchlist <==> other in p.watchlist) &&
      q.likes == p.likes && q.dislikes == p.dislikes
    ensures key !in p.watchlist ==> ToggleWatchlist(ToggleWatchlist(p, key), key) == p
    ensures forall x :: x in ToggleWatchlist(ToggleWatchlist(p, key), key).watchlist <==> x in p.watchlist
  {
    if key !in p.watchlist {
      var w := p.watchlist;
      Seqs.FilterConcat(w, [key], id => id != key);
      Seqs.FilterAll(w, id => id != key);
      assert Seqs.Filter([key], id => id != key) == [];
      assert Without(w + [key], key) == w;
    }
  }

  /** One toggle call. */
  datatype Toggle = Like(key: string) | Dislike(key: string) | Watch(key: string)

  function Step(p: Prefs, t: Toggle): Prefs {
    match t
    case Like(k) => ToggleLike(p, k)
    case Dislike(k) => ToggleDislike(p, k)
    case Watch(k) => ToggleWatchlist(p, k)
  }

  function Run(p: Prefs, ts: seq<Toggle>): Prefs
    decreases |ts|
  {
    if ts == [] then p else Run(Step(p, ts[0]), ts[1..])
  }

  /** Starting from consistent lists, any sequence of toggles keeps likes
      and dislikes duplicate-free and disjoint. */
  lemma {:induction false} RunConsistent(p: Prefs, ts: seq<Toggle>)
    requires Consistent(p)
    ensures Consistent(Run(p, ts))
    decreases |ts|
  {
    if ts != [] {
      var t := ts[0];
      match t {
        case Like(k) => ToggleLikeConsistent(p, k);
        case Dislike(k) => ToggleDislikeConsistent(p, k);
        case Watch(k) =>
      }
      RunConsistent(Step(p, t), ts[1..]);
    }
  }

  /** The provider's state. */
  class PreferencesProvider {
    var likes: seq<string>
    var dislikes: seq<string>
    var watchlist: seq<string>

    function Snapshot(): Prefs
      reads this
    {
      Prefs(likes, dislikes, watchlist)
    }

    /** The lists as loaded from storage on mount. */
    constructor(saved: Prefs)
      ensures Snapshot() == saved
    {
      likes := saved.likes;
      dislikes := saved.dislikes;
      watchlist := saved.watchlist;
    }

    method ToggleLikeOf(itemId: string, itemType: string)
      modifies this
      ensures Snapshot() == ToggleLike(old(Snapshot()), ItemKey(itemId, itemType))
    {
      var key := ItemKey(itemId, itemType);
      if key in likes {
        likes := Without(likes, key);
      } else {
        dislikes := Without(dislikes, key);
        likes := likes + [key];
      }
    }

    method ToggleDislikeOf(itemId: string, itemType: string)
      modifies this
      ensures Snapshot() == ToggleDislike(old(Snapshot()), ItemKey(itemId, itemType))
    {
      var key := ItemKey(itemId, itemType);
      if key in dislikes {
        dislikes := Without(dislikes, key);
      } else {
        likes := Without(likes, key);
        dislikes := dislikes + [key];
      }
    }

    method ToggleWatchlistOf(itemId: string, itemType: string)
      modifies this
      ensures Snapshot() == ToggleWatchlist(old(Snapshot()), ItemKey(itemId, itemType))
    {
      var key := ItemKey(itemId, itemType);
      if key in watchlist {
        watchlist := Without(watchlist, key);
      } else {
        watchlist := watchlist + [key];
      }
    }

    predicate IsLiked(itemId: string, itemType: string)
      reads this
    {
      ItemKey(itemId, itemType) in likes
    }

    predicate IsDisliked(itemId: string, itemType: string)
      reads this
    {
      ItemKey(itemId, itemType) in dislikes
    }

    predicate IsInWatchlist(itemId: string, itemType: string)
      reads this
    {
      ItemKey(itemId, itemType) in watchlist
    }
  }

  /** Liking an item that is not liked makes it liked and not disliked;
      liking it again makes it neither. */
  lemma LikeTwice(p: Prefs, itemId: string, itemType: string)
    requires ItemKey(itemId, itemType) !in p.likes
    ensures var key := ItemKey(itemId, itemType);
      var q := ToggleLike(p, key);
      key in q.likes && key !in q.dislikes &&
      key !in ToggleLike(q, key).likes && key !in ToggleLike(q, key).dislikes
  {
  }
}

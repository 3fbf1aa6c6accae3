/**
 * The reels page: the like toggle over the reel list, and the page state
 * (current reel, play/pause, mute) that the scroll and button handlers update.
 */
module Reels {
  import opened JsValues

  /** A reel as the page holds it; the embedded author record is not modelled. */
  datatype Reel = Reel(
    id: string,
    userId: string,
    videoUrl: string,
    thumbnailUrl: Option<string>,
    caption: Option<string>,
    likesCount: int,
    commentsCount: int,
    viewsCount: int,
    createdAt: string,
    isLiked: Option<bool>)

  /** Truthiness of `reel.is_liked` (absent counts as not liked). */
  predicate Liked(r: Reel) {
    TruthyBool(r.isLiked)
  }

  /** The likes of everyone but the viewer: the count with the viewer's own like taken out. */
  function LikesFromOthers(r: Reel): int {
    r.likesCount - (if Liked(r) then 1 else 0)
  }

  /** The updater applied to the reel that was clicked. */
  function ToggleLike(r: Reel): (t: Reel)
    ensures t.isLiked == Some(!Liked(r))
    ensures Liked(t) != Liked(r)
    ensures t.likesCount == r.likesCount + (if Liked(r) then -1 else 1)
    ensures LikesFromOthers(t) == LikesFromOthers(r)
    ensures t.(isLiked := r.isLiked, likesCount := r.likesCount) == r
  {
    r.(isLiked := Some(!Liked(r)),
       likesCount := if Liked(r) then r.likesCount - 1 else r.likesCount + 1)
  }

  /** Two clicks restore the count exactly, and `is_liked` up to truthiness (`undefined` comes back as `false`). */
  lemma ToggleLikeTwice(r: Reel)
    ensures ToggleLike(ToggleLike(r)) == r.(isLiked := Some(Liked(r)))
  {
  }

  /** `prev.map(...)` in `handleLike(reelId)`: toggle every reel with that id, keep the others. */
  function ToggleLikeById(reels: seq<Reel>, reelId: string): (rs: seq<Reel>)
    ensures |rs| == |reels|
    ensures forall i | 0 <= i < |reels| ::
      rs[i] == if reels[i].id == reelId then ToggleLike(reels[i]) else reels[i]
  {
    if reels == [] then []
    else [if reels[0].id == reelId then ToggleLike(reels[0]) else reels[0]]
         + ToggleLikeById(reels[1..], reelId)
  }

  /** Liking the same reel twice restores every count and every like state up to truthiness. */
  lemma ToggleLikeByIdTwice(reels: seq<Reel>, reelId: string)
    ensures var rs := ToggleLikeById(ToggleLikeById(reels, reelId), reelId);
      && |rs| == |reels|
      && forall i | 0 <= i < |reels| ::
           && rs[i].likesCount == reels[i].likesCount
           && Liked(rs[i]) == Liked(reels[i])
           && (reels[i].isLiked.Some? ==> rs[i] == reels[i])
  {
    var rs := ToggleLikeById(ToggleLikeById(reels, reelId), reelId);
    forall i | 0 <= i < |reels|
      ensures rs[i].likesCount == reels[i].likesCount && Liked(rs[i]) == Liked(reels[i])
      ensures reels[i].isLiked.Some? ==> rs[i] == reels[i]
    {
      ToggleLikeTwice(reels[i]);
      if reels[i].isLiked.Some? {
        var b := reels[i].isLiked.value;
        assert reels[i].isLiked == Some(b);
        assert Liked(reels[i]) == b;
        assert reels[i].(isLiked := reels[i].isLiked) == reels[i];
      }
    }
  }

  /** The page's state. */
  class ReelsFeed {
    var reels: seq<Reel>
    var currentIndex: int
    var isPlaying: bool
    var isMuted: bool

    /** The current index is the initial 0 or a position in the list. */
    ghost predicate Valid()
      reads this
    {
      currentIndex == 0 || 0 <= currentIndex < |reels|
    }

    /** The page once `fetchReels` has stored its list; the list itself comes from outside. */
    constructor (fetched: seq<Reel>)
      ensures Valid()
      ensures reels == fetched && currentIndex == 0 && isPlaying && !isMuted
    {
      reels, currentIndex, isPlaying, isMuted := fetched, 0, true, false;
    }

    /** `handleScroll` with the rounded index already computed: move only to a different, existing reel. */
    method HandleScroll(newIndex: int)
      requires Valid()
      modifies this
      ensures Valid()
      ensures currentIndex != old(currentIndex) ==> currentIndex == newIndex && 0 <= newIndex < |reels|
      ensures newIndex != old(currentIndex) && 0 <= newIndex < |reels| ==> currentIndex == newIndex
      ensures reels == old(reels) && isPlaying == old(isPlaying) && isMuted == old(isMuted)
    {
      if newIndex != currentIndex && newIndex >= 0 && newIndex < |reels| {
        currentIndex := newIndex;
      }
    }

    /** `handleLike(reelId)`. */
    method HandleLike(reelId: string)
      requires Valid()
      modifies this
      ensures Valid()
      ensures reels == ToggleLikeById(old(reels), reelId)
      ensures currentIndex == old(currentIndex) && isPlaying == old(isPlaying) && isMuted == old(isMuted)
    {
      reels := ToggleLikeById(reels, reelId);
    }

    /** `togglePlayPause`. */
    method TogglePlayPause()
      modifies this
      ensures isPlaying == !old(isPlaying)
      ensures reels == old(reels) && currentIndex == old(currentIndex) && isMuted == old(isMuted)
    {
      isPlaying := !isPlaying;
    }

    /** `toggleMute`. */
    method ToggleMute()
      modifies this
      ensures isMuted == !old(isMuted)
      ensures reels == old(reels) && currentIndex == old(currentIndex) && isPlaying == old(isPlaying)
    {
      isMuted := !isMuted;
    }
  }

  /** Pressing play/pause twice and mute twice leaves the page as it was. */
  method TogglesTwiceRestore(feed: ReelsFeed)
    modifies feed
    ensures feed.isPlaying == old(feed.isPlaying) && feed.isMuted == old(feed.isMuted)
    ensures feed.reels == old(feed.reels) && feed.currentIndex == old(feed.currentIndex)
  {
    feed.TogglePlayPause();
    feed.TogglePlayPause();
    feed.ToggleMute();
    feed.ToggleMute();
  }
}

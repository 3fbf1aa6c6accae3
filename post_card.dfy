/**
 * The feed's post card: the local like state a click toggles, and the
 * conditions that decide which lines of the card are shown.
 */
module PostCard {
  import opened JsValues

  /** A post as the card receives it; the embedded author record is not modelled. */
  datatype Post = Post(
    id: string,
    userId: string,
    caption: Option<string>,
    imageUrl: string,
    likesCount: int,
    commentsCount: int,
    createdAt: string,
    updatedAt: string,
    isLiked: Option<bool>)

  /** The likes line under the actions: `None` when hidden, otherwise the word after the count. */
  function LikesLabel(likesCount: int): (word: Option<string>)
    ensures word.Some? <==> likesCount > 0
    ensures word == Some("like") <==> likesCount == 1
    ensures word == Some("likes") <==> likesCount > 1
  {
    if likesCount > 0 then Some(if likesCount == 1 then "like" else "likes") else None
  }

  /** The "View all N comments" link: `None` when hidden, otherwise the N it shows. */
  function CommentsLink(post: Post): (n: Option<int>)
    ensures n.Some? <==> post.commentsCount > 0
    ensures n.Some? ==> n.value == post.commentsCount && n.value >= 1
  {
    if post.commentsCount > 0 then Some(post.commentsCount) else None
  }

  /** The card's state for one post. */
  class Card {
    const post: Post
    /** Whether the parent passed an `onLike` callback. */
    const hasOnLike: bool
    var isLiked: bool
    var likesCount: int

    /** The likes of everyone but the viewer; a click never changes it. */
    function LikesFromOthers(): int
      reads this
    {
      likesCount - (if isLiked then 1 else 0)
    }

    /** `useState(post.is_liked || false)` and `useState(post.likes_count)`. */
    constructor (post: Post, hasOnLike: bool)
      ensures this.post == post && this.hasOnLike == hasOnLike
      ensures isLiked == TruthyBool(post.isLiked) && likesCount == post.likesCount
    {
      this.post := post;
      this.hasOnLike := hasOnLike;
      isLiked := TruthyBool(post.isLiked);
      likesCount := post.likesCount;
    }

    /** `handleLike`: flip the like, move the count with it, and report the post id to `onLike` if given. */
    method HandleLike() returns (notified: Option<string>)
      modifies this
      ensures isLiked == !old(isLiked)
      ensures likesCount == if old(isLiked) then old(likesCount) - 1 else old(likesCount) + 1
      ensures LikesFromOthers() == old(LikesFromOthers())
      ensures notified == if hasOnLike then Some(post.id) else None
    {
      var wasLiked := isLiked;
      isLiked := !isLiked;
      likesCount := if wasLiked then likesCount - 1 else likesCount + 1;
      notified := if hasOnLike then Some(post.id) else None;
    }
  }

  /** Two clicks restore both the like state and the count. */
  method LikeTwiceRestores(card: Card)
    modifies card
    ensures card.isLiked == old(card.isLiked) && card.likesCount == old(card.likesCount)
  {
    var first := card.HandleLike();
    var second := card.HandleLike();
  }
}

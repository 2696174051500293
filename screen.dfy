/**
 * The `App` component's state: the selected id, the pair of resources built for it and
 * `prevId`, the id those resources were built for. Selecting an id and running the effect
 * are explicit steps; React's scheduling of renders and effects is not modelled.
 */
module Screen {
  import opened Options
  import opened Fetchers
  import Resources
  import Boundaries

  const InitialId := 1

  class App {
    var id: int
    var prevId: int
    var postResource: Resources.Resource<Post, Error>
    var commentsResource: Resources.Resource<seq<Comment>, Error>

    /** Both resources wrap the fetches for `prevId`, and each keeps its own invariant. */
    ghost predicate Valid()
      reads this, postResource, commentsResource
    {
      && postResource.outcome == FetchPost(prevId)
      && commentsResource.outcome == FetchComments(prevId)
      && postResource.Valid() && commentsResource.Valid()
    }

    /** The first render: id 1, with both resources built for it. */
    constructor ()
      ensures Valid() && id == InitialId && prevId == InitialId
      ensures fresh(postResource) && postResource.Valid() && postResource.status == Resources.Loading
      ensures fresh(commentsResource) && commentsResource.Valid() && commentsResource.status == Resources.Loading
    {
      id := InitialId;
      prevId := InitialId;
      postResource := new Resources.Resource(FetchPost(InitialId));
      commentsResource := new Resources.Resource(FetchComments(InitialId));
    }

    /** A click on "View Post n": `setId(n)`. */
    method SetId(n: int)
      modifies this`id
      ensures id == n
    {
      id := n;
    }

    /** The effect run after a render with a new `id`: when `id` differs from `prevId`, both
        resources are replaced by fresh ones wrapping new fetches for `id`, and `prevId`
        records `id`; otherwise nothing changes. Afterwards the resources belong to `id`. */
    method Effect()
      requires Valid()
      modifies this
      ensures Valid() && prevId == id && id == old(id)
      ensures old(prevId) != old(id) ==>
        && fresh(postResource) && postResource.Valid() && postResource.status == Resources.Loading
        && fresh(commentsResource) && commentsResource.Valid() && commentsResource.status == Resources.Loading
      ensures old(prevId) == old(id) ==>
        && postResource == old(postResource) && commentsResource == old(commentsResource)
        && prevId == old(prevId)
    {
      if prevId != id {
        postResource := new Resources.Resource(FetchPost(id));
        commentsResource := new Resources.Resource(FetchComments(id));
        prevId := id;
      }
    }
  }

  /** One post region from start to end: a resource over `fetchPost(id)` is read while
      loading, its continuation runs with the fetch's outcome, it is read again, and an
      error from that read is captured by a fresh error boundary, which then renders. */
  method ShowPost(id: int)
    returns (first: Resources.ReadResult<Post, Error>, second: Resources.ReadResult<Post, Error>,
             shown: Boundaries.View)
    ensures first == Resources.Pending && second != Resources.Pending
    ensures second.Failed? <==> id > MaxPostId
    ensures second.Failed? ==> second.error.message == InvalidPostMessage
    ensures second.Ready? ==> second.value == FetchPost(id).value
    ensures second.Ready? ==>
      && second.value.id == id
      && Unlabel(TitleLabel, second.value.title) == Some(id)
      && Unlabel(ContentLabel, second.value.content) == Some(id)
    ensures shown.ErrorDisplay? <==> id > MaxPostId
    ensures shown.ErrorDisplay? ==> shown.text == Boundaries.ErrorPrefix + InvalidPostMessage
  {
    var resource := new Resources.Resource(FetchPost(id));
    first := resource.Read();
    resource.Settle(FetchPost(id));
    second := resource.Read();
    var boundary := new Boundaries.ErrorBoundary();
    if second.Failed? {
      boundary.Capture(second.error);
    }
    shown := boundary.Render();
  }
}

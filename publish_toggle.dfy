/**
 * The publish button of the dashboard (components/admin/PublishToggle.tsx): it unpublishes
 * a published article and publishes any other, labels itself by the action it will take,
 * and reports the outcome in a toast.
 */
module PublishToggle {
  import opened Options
  import opened Backend
  import opened Feedback
  import opened QueryCache
  import AdminContent

  datatype Direction = ToPublish | ToUnpublish

  /** The action a click takes, chosen from the status as rendered. */
  function DirectionFor(status: ContentStatus): (d: Direction)
    ensures d == ToUnpublish <==> status == Published
  {
    if status == Published then ToUnpublish else ToPublish
  }

  /** The verb naming a direction in the label and in the messages. */
  function Verb(d: Direction): string
  {
    if d == ToUnpublish then "unpublish" else "publish"
  }

  /** The button's text. */
  function Label(status: ContentStatus): (r: string)
    ensures r == "Unpublish" <==> status == Published
    ensures r == "Publish" <==> status != Published
  {
    if status == Published then "Unpublish" else "Publish"
  }

  /** The button is disabled while either mutation is pending. */
  predicate IsLoading(publishPending: bool, unpublishPending: bool)
  {
    publishPending || unpublishPending
  }

  /** The mutation a click runs. */
  function MutationFor(article: Article): (m: AdminContent.Mutation)
    ensures m.Publish? || m.Unpublish?
    ensures m.id == article.id
    ensures m.Unpublish? <==> article.status == Published
  {
    if DirectionFor(article.status) == ToUnpublish then AdminContent.Unpublish(article.id) else AdminContent.Publish(article.id)
  }

  /** The toast after the mutation settles. */
  function ToggleToast(d: Direction, result: Reply<()>): (t: Toast)
    ensures result.Resolved? ==> t == Success(if d == ToUnpublish then "Article unpublished" else "Article published")
    ensures result.Rejected? && MentionsAccess(result.message) ==> t == Error("Owner access required to publish articles")
    ensures result.Rejected? && !MentionsAccess(result.message) ==> t == Error("Failed to " + Verb(d) + " article")
  {
    match result
    case Resolved(_) => Success(if d == ToUnpublish then "Article unpublished" else "Article published")
    case Rejected(message) =>
      if MentionsAccess(MessageOr(message, "")) then Error("Owner access required to publish articles")
      else Error("Failed to " + Verb(d) + " article")
  }

  /** The label names the action the click takes, and a success toast names the same action. */
  lemma LabelMatchesAction(status: ContentStatus)
    ensures Label(status) == (if DirectionFor(status) == ToUnpublish then "Unpublish" else "Publish")
    ensures ToggleToast(DirectionFor(status), Resolved(())).text == "Article " + Verb(DirectionFor(status)) + "ed"
  {
  }

  /** Without an actor the failure is not read as an access failure. */
  lemma MissingActorIsPlainFailure(d: Direction)
    ensures ToggleToast(d, Rejected(ActorNotAvailable)) == Error("Failed to " + Verb(d) + " article")
  {
    MissingActorIsNoAccessFailure();
  }

  /** `handleToggle` */
  method HandleToggle(article: Article, client: QueryClient, actor: bool, reply: Reply<()>) returns (request: Option<Call>, toast: Toast)
    requires Valid(client.State())
    modifies client
    ensures request == (if actor then Some(AdminContent.RequestOf(MutationFor(article))) else None)
    ensures toast == ToggleToast(DirectionFor(article.status), if actor then reply else Rejected(ActorNotAvailable))
    ensures client.State() ==
      (if actor && reply.Resolved? then Invalidate(old(client.State()), AdminContent.InvalidatedBy(MutationFor(article)))
       else old(client.State()))
  {
    var result;
    request, result := AdminContent.Mutate(client, MutationFor(article), actor, reply);
    toast := ToggleToast(DirectionFor(article.status), result);
  }
}

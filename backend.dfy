/**
 * The remote article service as the front end sees it: the types of its interface and
 * the calls the front end makes on it. The service itself is not modelled; every call
 * is answered by a `Reply` that the caller of a model operation supplies.
 */
module Backend {
  import opened Options

  datatype ContentStatus = Published | Draft

  datatype UserRole = Admin | User | Guest

  /** A reference to a binary held by the blob store; only its direct URL is visible here. */
  datatype ExternalBlob = ExternalBlob(directUrl: string)

  /** `ExternalBlob.fromURL(url)` */
  function BlobFromUrl(url: string): (b: ExternalBlob)
    ensures b.directUrl == url
  {
    ExternalBlob(url)
  }

  /** Timestamps (`Time = bigint`) are unbounded integers. */
  datatype Article = Article(
    id: string,
    status: ContentStatus,
    title: string,
    body: string,
    createdAt: int,
    coverImage: Option<ExternalBlob>,
    updatedAt: int)

  /** The caller's profile; its fields are declared outside the modelled files. */
  datatype UserProfile = UserProfile(name: string)

  /**
   * One call on the service with the arguments the front end passes to it.
   * `sessionToken: None` is an argument the front end leaves out.
   */
  datatype Call =
    | Login(username: string, password: string)
    | Logout(token: string)
    | CreateArticle(title: string, body: string, coverImage: Option<ExternalBlob>, sessionToken: Option<string>)
    | UpdateArticle(id: string, title: string, body: string, coverImage: Option<ExternalBlob>, sessionToken: Option<string>)
    | PublishArticle(id: string, sessionToken: Option<string>)
    | UnpublishArticle(id: string, sessionToken: Option<string>)
    | GetArticleById(id: string, sessionToken: Option<string>)
    | GetPublishedArticles
    | IsCallerAdmin
    | GetCallerUserProfile
    | SaveCallerUserProfile(profile: UserProfile)

  /** How a call settles: its promise resolves with a value or rejects with an error message (empty when the error has none). */
  datatype Reply<+T> = Resolved(value: T) | Rejected(message: string)

  /** The error every hook throws when there is no actor to call the service through. */
  const ActorNotAvailable: string := "Actor not available"
}

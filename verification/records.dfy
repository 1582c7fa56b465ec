/** The records the application reads from and writes to its document store.
    Fields a stored document may lack are `Option`s; timestamps are plain integers
    (milliseconds), and every store write is reduced to a success/failure outcome. */
module Records {

  datatype Option<+T> = None | Some(value: T) {
    /** The wrapped value, or `default` when absent. */
    function GetOr(default: T): T {
      match this
      case Some(v) => v
      case None => default
    }
  }

  /** The outcome of one write to the document store (the store itself is not modelled). */
  datatype WriteOutcome = Succeeded | Failed

  /** The signed-in user as the identity provider reports it. */
  datatype User = User(displayName: string, email: string, photoURL: Option<string>)

  /** One entry of a project's `joinRequests` array. */
  datatype JoinRequest = JoinRequest(
    userEmail: Option<string>,
    userName: string,
    userPhoto: Option<string>,
    timestamp: int)

  /** The fields stored in a project document. `idField` is a stored field called `id`,
      which no writer of this application produces but which the object spread honours. */
  datatype ProjectData = ProjectData(
    idField: Option<string>,
    title: string,
    description: string,
    authorName: string,
    authorEmail: Option<string>,
    authorPhoto: Option<string>,
    timestamp: Option<int>,
    joinRequests: Option<seq<JoinRequest>>)

  /** A document as a snapshot delivers it: the store-assigned id and the stored fields. */
  datatype Doc = Doc(id: string, data: ProjectData)

  /** A project as the components hold it: `{ id: doc.id, ...doc.data() }`. */
  datatype Project = Project(
    id: string,
    title: string,
    description: string,
    authorName: string,
    authorEmail: Option<string>,
    authorPhoto: Option<string>,
    timestamp: Option<int>,
    joinRequests: Option<seq<JoinRequest>>)

  /** Tags a delivered document with its id. The spread comes after `id: doc.id`,
      so a stored `id` field, if present, wins. */
  function FromDoc(d: Doc): Project {
    Project(
      d.data.idField.GetOr(d.id),
      d.data.title,
      d.data.description,
      d.data.authorName,
      d.data.authorEmail,
      d.data.authorPhoto,
      d.data.timestamp,
      d.data.joinRequests)
  }

  /** The project's join requests, a missing array read as empty. */
  function Requests(p: Project): seq<JoinRequest> {
    match p.joinRequests
    case Some(rs) => rs
    case None => []
  }

  /** `currentUser?.email`: absent when nobody is signed in. */
  function EmailOf(user: Option<User>): Option<string> {
    match user
    case Some(u) => Some(u.email)
    case None => None
  }

  /** Every delivered document tagged with its id, in delivered order. */
  function Tag(docs: seq<Doc>): seq<Project> {
    seq(|docs|, k requires 0 <= k < |docs| => FromDoc(docs[k]))
  }
}

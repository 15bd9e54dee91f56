/**
 * The records shared by the routes and the reply generator: a chat message and a
 * conversation session.
 */
module Types {

  /** An optional value; `None` stands for JavaScript's `undefined`. */
  datatype Option<+T> = None | Some(value: T) {
    function GetOr(default: T): T {
      match this
      case Some(v) => v
      case None => default
    }
  }

  /** Who wrote a message. */
  datatype Role = User | Assistant

  /** One turn of a conversation. */
  datatype ChatMsg = ChatMsg(role: Role, content: string)

  /**
   * A conversation. `mode` is kept as the string the route stored: the routes store
   * modes that the declared type below does not list.
   */
  datatype Session = Session(id: string, mode: string, summary: Option<string>, history: seq<ChatMsg>)

  /** The modes the Session record declares. */
  const DeclaredModes: set<string> := {"closure", "alternate", "supportive", "rebound"}
}

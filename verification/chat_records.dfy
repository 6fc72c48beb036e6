/** The chats the browser keeps: each chat has an id, a title, its messages and an archive flag. */
module ChatRecords {
  import opened Basics

  /** One message of a chat; `imageData` holds a generated image, encoded as text, when there is one. */
  datatype Message = Message(content: string, isUser: bool, timestamp: string, imageData: Option<string>)

  datatype Chat = Chat(id: string, title: string, messages: seq<Message>, archived: bool, timestamp: string)

  /** `chats.findIndex(c => c.id === id)`, as an optional position: the first chat with the id. */
  function FindChat(chats: seq<Chat>, id: string): (r: Option<nat>)
    ensures r.Some? ==> r.value < |chats| && chats[r.value].id == id
    ensures r.Some? ==> forall k :: 0 <= k < r.value ==> chats[k].id != id
    ensures r.None? <==> forall k :: 0 <= k < |chats| ==> chats[k].id != id
  {
    if chats == [] then None
    else if chats[0].id == id then Some(0)
    else match FindChat(chats[1..], id)
      case None => None
      case Some(i) => Some(i + 1)
  }
}

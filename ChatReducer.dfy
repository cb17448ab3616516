/**
 * The chat client's reducer: the state of one chat widget and the actions
 * that change it.  Each action returns a new state that differs from the
 * old one only in the fields that action is about.
 */
module ChatReducer {
  import opened Options
  import opened ChatMessages

  /** An entry of the online-users list and the current user, as the server sends them. */
  datatype UserRef = UserRef(id: nat, name: string)

  /** The room summary the widget shows. */
  datatype RoomInfo = RoomInfo(id: nat, name: string)

  datatype Pagination = Pagination(currentPage: nat, lastPage: nat, hasMore: bool)

  datatype ChatState = ChatState(
    isConnected: bool,
    isJoined: bool,
    messages: seq<Message>,
    onlineUsers: seq<UserRef>,
    currentUser: Option<UserRef>,
    roomInfo: Option<RoomInfo>,
    loading: bool,
    error: Option<string>,
    pagination: Pagination)

  /** `initialState`. */
  const InitialState := ChatState(false, false, [], [], None, None, false, None, Pagination(1, 1, false))

  /** The dispatched actions, with their payloads; `Other` is any type the switch does not list. */
  datatype Action =
    | SetLoading(loading: bool)
    | SetError(error: Option<string>)
    | SetConnected(connected: bool)
    | SetJoined(joined: bool)
    | SetMessages(messages: seq<Message>)
    | AddMessage(message: Message)
    | SetOnlineUsers(users: seq<UserRef>)
    | SetRoomInfo(room: Option<RoomInfo>)
    | SetCurrentUser(user: Option<UserRef>)
    | UpdatePagination(pagination: Pagination)
    | ClearMessages
    | Other(actionType: string)

  /** `chatReducer`. */
  function Reduce(s: ChatState, a: Action): ChatState {
    match a
    case SetLoading(b) => s.(loading := b)
    case SetError(e) => s.(error := e, loading := false)
    case SetConnected(b) => s.(isConnected := b)
    case SetJoined(b) => s.(isJoined := b)
    case SetMessages(ms) => s.(messages := ms, loading := false)
    case AddMessage(m) => s.(messages := [m] + s.messages)
    case SetOnlineUsers(us) => s.(onlineUsers := us)
    case SetRoomInfo(r) => s.(roomInfo := r)
    case SetCurrentUser(u) => s.(currentUser := u)
    case UpdatePagination(p) => s.(pagination := p)
    case ClearMessages => s.(messages := [])
    case Other(_) => s
  }

  /** The fields of the state. */
  datatype Field = Connected | Joined | Messages | OnlineUsers | CurrentUser | Room | Loading | Error | Paging

  /** The fields in which two states differ. */
  function Changed(s: ChatState, t: ChatState): set<Field> {
    (if s.isConnected != t.isConnected then {Connected} else {})
    + (if s.isJoined != t.isJoined then {Joined} else {})
    + (if s.messages != t.messages then {Messages} else {})
    + (if s.onlineUsers != t.onlineUsers then {OnlineUsers} else {})
    + (if s.currentUser != t.currentUser then {CurrentUser} else {})
    + (if s.roomInfo != t.roomInfo then {Room} else {})
    + (if s.loading != t.loading then {Loading} else {})
    + (if s.error != t.error then {Error} else {})
    + (if s.pagination != t.pagination then {Paging} else {})
  }

  /** The fields each action is about. */
  function Touches(a: Action): set<Field> {
    match a
    case SetLoading(_) => {Loading}
    case SetError(_) => {Error, Loading}
    case SetConnected(_) => {Connected}
    case SetJoined(_) => {Joined}
    case SetMessages(_) => {Messages, Loading}
    case AddMessage(_) => {Messages}
    case SetOnlineUsers(_) => {OnlineUsers}
    case SetRoomInfo(_) => {Room}
    case SetCurrentUser(_) => {CurrentUser}
    case UpdatePagination(_) => {Paging}
    case ClearMessages => {Messages}
    case Other(_) => {}
  }

  /** Two states that differ in no field are the same state. */
  lemma NoChangeSame(s: ChatState, t: ChatState)
    requires Changed(s, t) == {}
    ensures s == t
  {
    assert Connected !in Changed(s, t) && Joined !in Changed(s, t) && Messages !in Changed(s, t);
    assert OnlineUsers !in Changed(s, t) && CurrentUser !in Changed(s, t) && Room !in Changed(s, t);
    assert Loading !in Changed(s, t) && Error !in Changed(s, t) && Paging !in Changed(s, t);
  }

  /** Every action changes only the fields it is about. */
  lemma ReduceFrame(s: ChatState, a: Action)
    ensures Changed(s, Reduce(s, a)) <= Touches(a)
  {
  }

  /** An action the switch does not list returns the state as it was. */
  lemma UnknownUnchanged(s: ChatState, name: string)
    ensures Reduce(s, Other(name)) == s
  {
    ReduceFrame(s, Other(name));
    NoChangeSame(s, Reduce(s, Other(name)));
  }

  /** A new message goes in front, one longer, the older ones after it in order. */
  lemma AddMessageFront(s: ChatState, m: Message)
    ensures var t := Reduce(s, AddMessage(m));
            |t.messages| == |s.messages| + 1 && t.messages[0] == m && t.messages[1..] == s.messages
            && Changed(s, t) <= {Messages}
  {
    ReduceFrame(s, AddMessage(m));
  }

  /** Loading a message list or an error ends the loading state; the payload is stored. */
  lemma LoadingEnds(s: ChatState, ms: seq<Message>, e: Option<string>)
    ensures var t := Reduce(s, SetMessages(ms)); t.messages == ms && !t.loading && Changed(s, t) <= {Messages, Loading}
    ensures var t := Reduce(s, SetError(e)); t.error == e && !t.loading && Changed(s, t) <= {Error, Loading}
  {
    ReduceFrame(s, SetMessages(ms));
    ReduceFrame(s, SetError(e));
  }

  /** Clearing empties the list and changes nothing else. */
  lemma ClearEmpties(s: ChatState)
    ensures var t := Reduce(s, ClearMessages); t.messages == [] && Changed(s, t) <= {Messages}
  {
    ReduceFrame(s, ClearMessages);
  }

  /** A run of actions, in dispatch order. */
  function ReduceAll(s: ChatState, actions: seq<Action>): ChatState
    decreases |actions|
  {
    if actions == [] then s else ReduceAll(Reduce(s, actions[0]), actions[1..])
  }

  function Reverse(ms: seq<Message>): (r: seq<Message>)
    ensures |r| == |ms|
  {
    if ms == [] then [] else Reverse(ms[1..]) + [ms[0]]
  }

  /** One `ADD_MESSAGE` per message. */
  function AddEach(ms: seq<Message>): (r: seq<Action>)
    ensures |r| == |ms| && forall i :: 0 <= i < |ms| ==> r[i] == AddMessage(ms[i])
  {
    if ms == [] then [] else [AddMessage(ms[0])] + AddEach(ms[1..])
  }

  /** Messages added one by one end up newest first, in front of those already there. */
  lemma {:induction false} AddedNewestFirst(s: ChatState, ms: seq<Message>)
    ensures ReduceAll(s, AddEach(ms)).messages == Reverse(ms) + s.messages
    ensures Changed(s, ReduceAll(s, AddEach(ms))) <= {Messages}
    decreases |ms|
  {
    if ms != [] {
      var t := Reduce(s, AddMessage(ms[0]));
      assert AddEach(ms)[1..] == AddEach(ms[1..]);
      AddedNewestFirst(t, ms[1..]);
      assert Reverse(ms[1..]) + [ms[0]] + s.messages == Reverse(ms[1..]) + t.messages;
      ReduceFrame(s, AddMessage(ms[0]));
    }
  }

  /** Clearing after anything leaves an empty list, whatever was added before. */
  lemma ClearAfterAdds(s: ChatState, ms: seq<Message>)
    ensures Reduce(ReduceAll(s, AddEach(ms)), ClearMessages).messages == []
    ensures Reduce(ReduceAll(s, AddEach(ms)), ClearMessages).loading == s.loading
  {
    AddedNewestFirst(s, ms);
    assert Loading !in Changed(s, ReduceAll(s, AddEach(ms)));
  }
}

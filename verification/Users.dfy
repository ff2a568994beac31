/** Who a ceremony is for: a local user and one registration of a UI agent. */
module Users {
  import opened Base

  datatype Session = Session(sessionId: Text, agentId: Text, generation: u64)

  datatype Binding = Binding(uid: u32, session: Option<Session>)

  datatype UserContext = UserContext(uid: u32, name: Text, session: Option<Session>) {
    function Bound(): (b: Binding) {
      Binding(uid, session)
    }
  }
}

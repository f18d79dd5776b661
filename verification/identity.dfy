/** Role classification of a participant's `nick` by naming convention:
    agents are named `agent:…`, visitors `visitor…`. The test is a string
    method call, so a nick that is not a string makes it throw. */
module Identity {
  import opened JsValues

  const AgentPrefix: string := "agent:"
  const VisitorPrefix: string := "visitor"

  /** "`s` begins with `prefix`": the first `|prefix|` characters of `s`
      are `prefix`. */
  ghost predicate BeginsWith(s: string, prefix: string) {
    |prefix| <= |s| && s[..|prefix|] == prefix
  }

  /** `nick.startsWith(prefix)`. */
  function StartsWith(nick: Value, prefix: string): (r: Result<bool>)
    ensures r.Failure? <==> !nick.Str?
    ensures r.Success? ==> (r.value <==> BeginsWith(nick.s, prefix))
  {
    if nick.Str? then Success(prefix <= nick.s)
    else Failure(TypeError)
  }

  /** `isAgent(nick)`. */
  function IsAgent(nick: Value): (r: Result<bool>)
    ensures r.Failure? <==> !nick.Str?
    ensures r.Success? ==> (r.value <==> BeginsWith(nick.s, AgentPrefix))
  {
    StartsWith(nick, AgentPrefix)
  }

  /** `isVisitor(nick)`. */
  function IsVisitor(nick: Value): (r: Result<bool>)
    ensures r.Failure? <==> !nick.Str?
    ensures r.Success? ==> (r.value <==> BeginsWith(nick.s, VisitorPrefix))
  {
    StartsWith(nick, VisitorPrefix)
  }

  /** No nick is both an agent and a visitor: the prefixes differ in their
      first character. A nick may be neither. */
  lemma RolesExclusive(nick: Value)
    ensures IsAgent(nick) == Success(true) ==> IsVisitor(nick) == Success(false)
    ensures IsVisitor(nick) == Success(true) ==> IsAgent(nick) == Success(false)
    ensures IsAgent(Str("")) == Success(false) && IsVisitor(Str("")) == Success(false)
  {
    if nick.Str? && BeginsWith(nick.s, AgentPrefix) {
      assert nick.s[0] == 'a' != VisitorPrefix[0];
    }
  }

  /** The sentinel nick a visitor without an assigned nick sends under is
      classified as a visitor and not as an agent. */
  lemma FallbackNickIsVisitor()
    ensures IsVisitor(Str("visitor:")) == Success(true)
    ensures IsAgent(Str("visitor:")) == Success(false)
  {
    assert "visitor:"[0] != AgentPrefix[0];
  }
}

/** Who a session is: the capturing harness and the session identifier that every archive record,
    commit message and note path is built from. */
module Identity {
  import opened Text

  datatype SourceKind = Copilot | ClaudeCode | Codex {
    /** Prefix of the durable archive identity `<prefix>:<session>`. */
    function IdPrefix(): string {
      match this
      case Copilot => "copilot"
      case ClaudeCode => "claude-code"
      case Codex => "codex"
    }

    /** Label in archive frontmatter and in the state database. */
    function AgentLabel(): string {
      match this
      case Copilot => "copilot-cli"
      case ClaudeCode => "claude-code"
      case Codex => "codex-cli"
    }

    /** Selector in configuration, commit bodies and note titles. */
    function Selector(): string {
      IdPrefix()
    }
  }

  predicate IsAlphanumeric(c: char) {
    '0' <= c <= '9' || 'A' <= c <= 'Z' || 'a' <= c <= 'z'
  }

  predicate IsIdCharacter(c: char) {
    IsAlphanumeric(c) || c == '-' || c == '_' || c == '.'
  }

  /** A name over this alphabet is one path component unless it is `.` or `..`. */
  predicate ValidSessionId(id: string) {
    && 0 < |id| <= 128
    && id != "." && id != ".."
    && forall c :: c in id ==> IsIdCharacter(c)
  }

  /** The durable identity `<prefix>:<session>`. */
  function ArchiveId(source: SourceKind, session: string): string {
    source.IdPrefix() + ":" + session
  }

  lemma IdPrefixHasNoColon(source: SourceKind)
    ensures ':' !in source.IdPrefix() && |source.IdPrefix()| >= 5
  {
  }

  /** The identity determines the harness and the session, whatever the session is called. */
  lemma ArchiveIdInjective(source: SourceKind, session: string, source': SourceKind, session': string)
    requires ArchiveId(source, session) == ArchiveId(source', session')
    ensures source == source' && session == session'
  {
    IdPrefixHasNoColon(source);
    IdPrefixHasNoColon(source');
    SplitOnceAtFresh(source.IdPrefix(), ":", session);
    SplitOnceAtFresh(source'.IdPrefix(), ":", session');
    assert |source.IdPrefix()| == |source'.IdPrefix()|;
  }
}

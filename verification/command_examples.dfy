/**
  Concrete runs of the fallback command heuristic over two services from the
  repository's seed data (server/storage.ts).
 */
module CommandExamples {
  import opened Wrappers
  import opened Schema
  import CommandRouter
  import Text

  const Langfuse := Service("langfuse", "Langfuse", "ai", "operational", Some("http://localhost:3001"),
                            Some("langfuse_abc123"), Some(99.8), None)
  const Caddy := Service("caddy", "Caddy", "infra", "operational", None, Some("caddy_vwx234"), Some(99.99), None)

  /** The two services in name order, as `getAllServices` lists them. */
  const Listed := [Caddy, Langfuse]

  /** `Lower(s)` is `t` when they agree character by character. */
  lemma LowerIs(s: string, t: string)
    requires |s| == |t| && forall i :: 0 <= i < |s| ==> Text.LowerChar(s[i]) == t[i]
    ensures Text.Lower(s) == t
  {
  }

  /** The regular expression ignores case: the command is matched in lower case. */
  lemma LangfuseLower()
    ensures Text.Lower("Open Langfuse") == "open langfuse"
  {
    LowerIs("Open Langfuse", "open langfuse");
  }

  /** "open langfuse" carries the token "langfuse". */
  lemma LangfuseToken()
    ensures CommandRouter.OpenToken("open langfuse") == Some("langfuse")
  {
    CommandRouter.OpenTokenOfWord("langfuse");
    assert "open " + "langfuse" == "open langfuse";
  }

  /** "langfuse" is not inside Caddy's name or id, so the search moves on to Langfuse. */
  lemma FindLangfuse()
    ensures CommandRouter.FindService(Listed, "langfuse") == Some(1)
  {
    CaddyIsNotLangfuse();
    LangfuseIsLangfuse();
    assert Listed[1..] == [Langfuse];
  }

  /** "langfuse" is longer than "caddy", so Caddy's name and id cannot contain it. */
  lemma CaddyIsNotLangfuse()
    ensures !CommandRouter.NameOrIdContains(Caddy, "langfuse")
  {
    LowerIs("Caddy", "caddy");
    LowerIs("caddy", "caddy");
    LowerIs("langfuse", "langfuse");
  }

  /** Langfuse's id is the token itself. */
  lemma LangfuseIsLangfuse()
    ensures CommandRouter.NameOrIdContains(Langfuse, "langfuse")
  {
    LowerIs("langfuse", "langfuse");
    Text.ContainsSelf("langfuse");
  }

  /** "Open Langfuse" picks the second listed service. */
  lemma LangfuseTarget()
    ensures CommandRouter.FallbackTarget("Open Langfuse", Listed) == Some(1)
  {
    LangfuseLower();
    LangfuseToken();
    FindLangfuse();
  }

  /** Langfuse has a URL, so the reply announces that it is being opened. */
  lemma LangfuseReply()
    ensures CommandRouter.Fallback("Open Langfuse", Listed)
      == Response(OpenService, 0.7, Some("langfuse"), CommandRouter.OpeningMessage("Langfuse"), false)
  {
    LangfuseTarget();
    assert CommandRouter.HasUrl(Listed[1]);
  }

  lemma LangfuseMessage()
    ensures CommandRouter.OpeningMessage("Langfuse") == "Opening Langfuse in a new tab..."
  {
  }

  /** "Open Langfuse" finds the service with a URL and answers with the canonical message. */
  lemma OpenLangfuse()
    ensures CommandRouter.Fallback("Open Langfuse", Listed)
      == Response(OpenService, 0.7, Some("langfuse"), "Opening Langfuse in a new tab...", false)
  {
    LangfuseReply();
    LangfuseMessage();
  }

  /** "open caddy" is already lower case. */
  lemma CaddyLower()
    ensures Text.Lower("open caddy") == "open caddy"
  {
    LowerIs("open caddy", "open caddy");
  }

  /** "open caddy" carries the token "caddy". */
  lemma CaddyToken()
    ensures CommandRouter.OpenToken("open caddy") == Some("caddy")
  {
    CommandRouter.OpenTokenOfWord("caddy");
    assert "open " + "caddy" == "open caddy";
  }

  /** "open caddy" picks the first listed service. */
  lemma CaddyTarget()
    ensures CommandRouter.FallbackTarget("open caddy", Listed) == Some(0)
  {
    CaddyLower();
    CaddyToken();
    assert CommandRouter.NameOrIdContains(Caddy, "caddy") by {
      Text.ContainsSelf("caddy");
    }
  }

  /** Caddy has no URL, so the reply says so. */
  lemma CaddyReply()
    ensures CommandRouter.Fallback("open caddy", Listed)
      == Response(OpenService, 0.7, Some("caddy"), CommandRouter.NoUrlMessage("Caddy"), false)
  {
    CaddyTarget();
    assert !CommandRouter.HasUrl(Listed[0]);
  }

  lemma CaddyMessage()
    ensures CommandRouter.NoUrlMessage("Caddy") == "Caddy doesn't have a URL configured."
  {
  }

  /** "open caddy" still answers `open_service`, with the no-URL message. */
  lemma OpenCaddy()
    ensures CommandRouter.Fallback("open caddy", Listed)
      == Response(OpenService, 0.7, Some("caddy"), "Caddy doesn't have a URL configured.", false)
  {
    CaddyReply();
    CaddyMessage();
  }

  /** "opencaddy" has no white space after "open", so the pattern matches nowhere. */
  lemma NoTokenWithoutSpace()
    ensures CommandRouter.OpenToken("opencaddy").None?
  {
    var s := "opencaddy";
    assert !CommandRouter.OpenAt(s, 0) by {
      assert CommandRouter.SpaceRun(s, 4) == 0;
    }
    assert s[1..5] != "open" && s[2..6] != "open" && s[3..7] != "open";
    assert s[4..8] != "open" && s[5..9] != "open";
    assert CommandRouter.FirstOpenFrom(s, 6).None?;
    assert CommandRouter.FirstOpenFrom(s, 0).None?;
  }

  /** "opencaddy" therefore gets the not-configured answer. */
  lemma OpenWithoutSpace()
    ensures CommandRouter.Fallback("opencaddy", Listed)
      == Response(Unknown, 0.7, None, CommandRouter.NotConfiguredMessage, false)
  {
    LowerIs("opencaddy", "opencaddy");
    NoTokenWithoutSpace();
  }
}

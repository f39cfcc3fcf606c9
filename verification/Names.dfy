/** supervisor/src/names.ts: what a Bot id may be, and the names it becomes. */
module Names {

  const MAX_BOT_ID: nat := 128
  const DEFAULT_NAMESPACE: string := "openbot"

  predicate Alphanumeric(c: char) { 'A' <= c <= 'Z' || 'a' <= c <= 'z' || '0' <= c <= '9' }

  /** `^[A-Za-z0-9][A-Za-z0-9_-]*$` */
  predicate Allowed(s: string) {
    && s != "" && Alphanumeric(s[0])
    && forall i :: 0 <= i < |s| ==> Alphanumeric(s[i]) || s[i] == '_' || s[i] == '-'
  }

  datatype ComputerNames = ComputerNames(botId: string, container: string, profileVolume: string, workspaceVolume: string)

  datatype NameResult = Named(names: ComputerNames) | Refused

  /** The names of a Bot in a namespace; an empty, overlong or oddly spelled id has none. */
  function NamesFor(namespace: string, botId: string): (r: NameResult)
    ensures r.Named? <==> botId != "" && |botId| <= MAX_BOT_ID && Allowed(botId)
  {
    if botId == "" || |botId| > MAX_BOT_ID || !Allowed(botId) then Refused
    else
      Named(ComputerNames(
        botId,
        namespace + "-computer-" + botId,
        namespace + "-profile-" + botId,
        namespace + "-workspace-" + botId))
  }

  lemma SuffixSeparates(prefix: string, a: string, b: string)
    ensures prefix + a == prefix + b <==> a == b
  {
    assert (prefix + a)[|prefix|..] == a;
    assert (prefix + b)[|prefix|..] == b;
  }

  /** In one namespace, two Bots share no name, and no Bot's profile volume is any Bot's workspace volume. */
  lemma NamesSeparate(namespace: string, a: string, b: string)
    requires NamesFor(namespace, a).Named? && NamesFor(namespace, b).Named?
    ensures var x, y := NamesFor(namespace, a).names, NamesFor(namespace, b).names;
            && (x.container == y.container <==> a == b)
            && (x.profileVolume == y.profileVolume <==> a == b)
            && (x.workspaceVolume == y.workspaceVolume <==> a == b)
            && x.profileVolume != y.workspaceVolume
  {
    SuffixSeparates(namespace + "-computer-", a, b);
    SuffixSeparates(namespace + "-profile-", a, b);
    SuffixSeparates(namespace + "-workspace-", a, b);
    var profile, workspace := namespace + "-profile-" + a, namespace + "-workspace-" + b;
    assert profile[|namespace| + 1] == 'p';
    assert workspace[|namespace| + 1] == 'w';
  }

  /** What Docker takes as the name of a container or a volume: two or more of these, the first alphanumeric. */
  predicate DockerName(s: string) {
    && |s| >= 2 && Alphanumeric(s[0])
    && forall i :: 0 <= i < |s| ==> Alphanumeric(s[i]) || s[i] == '_' || s[i] == '.' || s[i] == '-'
  }

  /** A namespace the supervisor starts with. */
  predicate LegalNamespace(namespace: string) { Allowed(namespace) && |namespace| <= MAX_BOT_ID }

  lemma JoinedIsDockerName(namespace: string, middle: string, botId: string)
    requires Allowed(namespace) && Allowed(botId)
    requires forall i :: 0 <= i < |middle| ==> 'a' <= middle[i] <= 'z' || middle[i] == '-'
    ensures DockerName(namespace + middle + botId)
  {
    var s := namespace + middle + botId;
    assert s[0] == namespace[0];
    forall i | 0 <= i < |s|
      ensures Alphanumeric(s[i]) || s[i] == '_' || s[i] == '.' || s[i] == '-'
    {
      assert s[i] == if i < |namespace| then namespace[i]
                     else if i < |namespace + middle| then middle[i - |namespace|]
                     else botId[i - |namespace + middle|];
    }
  }

  /** Begins with the namespace, and then says what it is the name of. */
  predicate Says(name: string, namespace: string, kind: string) {
    |namespace| + |kind| <= |name| && name[..|namespace|] == namespace && name[|namespace|..|namespace| + |kind|] == kind
  }

  lemma OneNameIsLegal(namespace: string, middle: string, botId: string)
    requires LegalNamespace(namespace) && Allowed(botId)
    requires forall i :: 0 <= i < |middle| ==> 'a' <= middle[i] <= 'z' || middle[i] == '-'
    ensures var name := namespace + middle + botId;
            && DockerName(name) && '/' !in name && ':' !in name && '.' !in name
            && name[|name| - |botId|..] == botId && Says(name, namespace, middle)
  {
    JoinedIsDockerName(namespace, middle, botId);
  }

  /**
   Every name made is one Docker takes, tells which Bot it is of, and holds no slash, colon or dot, in
   any namespace the supervisor starts with.
   */
  lemma NamesAreLegal(namespace: string, botId: string)
    requires LegalNamespace(namespace) && NamesFor(namespace, botId).Named?
    ensures var n := NamesFor(namespace, botId).names;
            && n.botId == botId
            && forall name :: name in {n.container, n.profileVolume, n.workspaceVolume} ==>
                 && DockerName(name) && '/' !in name && ':' !in name && '.' !in name
                 && name[|name| - |botId|..] == botId
    ensures Says(NamesFor(namespace, botId).names.container, namespace, "-computer-")
    ensures Says(NamesFor(namespace, botId).names.profileVolume, namespace, "-profile-")
    ensures Says(NamesFor(namespace, botId).names.workspaceVolume, namespace, "-workspace-")
  {
    OneNameIsLegal(namespace, "-computer-", botId);
    OneNameIsLegal(namespace, "-profile-", botId);
    OneNameIsLegal(namespace, "-workspace-", botId);
  }

  const DOCKER_NAME_LIMIT: nat := 255

  predicate Fits(namespace: string, botId: string)
    requires NamesFor(namespace, botId).Named?
  {
    var n := NamesFor(namespace, botId).names;
    |n.container| <= DOCKER_NAME_LIMIT && |n.profileVolume| <= DOCKER_NAME_LIMIT && |n.workspaceVolume| <= DOCKER_NAME_LIMIT
  }

  /** An id of the greatest length. */
  function LongestId(n: nat): (s: string)
    ensures |s| == n && forall i :: 0 <= i < n ==> s[i] == 'a'
  {
    seq(n, _ => 'a')
  }

  /** The names of every acceptable Bot id stay within Docker's 255 characters exactly when the namespace has at most 116. */
  lemma NamesFitExactlyWhen(namespace: string)
    ensures (forall botId :: NamesFor(namespace, botId).Named? ==> Fits(namespace, botId)) <==> |namespace| <= 116
  {
    if |namespace| > 116 {
      var longest := LongestId(MAX_BOT_ID);
      assert NamesFor(namespace, longest).Named? && !Fits(namespace, longest);
    }
  }
}

/**
 * The worker's request handler: path and method routing, the signature
 * gate, and the interaction handler that answers pings and dispatches
 * slash commands to the renderers.
 *
 * The request body arrives already decoded into an `Interaction`, the
 * signature check arrives as its verdict, and the leaderboard document
 * arrives as a snapshot; none of the three is computed here.
 */
module Server {
  import opened Optional
  import opened Text
  import opened Snapshot
  import opened Commands
  import Leaderboard
  import Stats
  import Users

  /** `InteractionType.PING` and `InteractionType.APPLICATION_COMMAND`. */
  const PingType := 1
  const ApplicationCommandType := 2

  /** `InteractionResponseType.PONG` and CHANNEL_MESSAGE_WITH_SOURCE. */
  const PongType := 1
  const ChannelMessageType := 4

  /** Message flags: IS_COMPONENTS_V2 (1 << 15) and EPHEMERAL (1 << 6). */
  const ComponentsV2Flag := 32768
  const EphemeralFlag := 64

  datatype Env = Env(applicationId: string)

  /** The decoded interaction: its type, the command name and its option values. */
  datatype Interaction = Interaction(kind: int, commandName: string, options: seq<string>)

  datatype Request = Request(
    path: string,            // `new URL(request.url).pathname`
    httpMethod: string,
    signatureValid: bool,    // the verdict of `verifyKey` on the raw body
    message: Interaction)

  /** The JSON bodies the interaction handler sends. */
  datatype Body =
    | PongBody(kind: int)
    | ComponentsBody(kind: int, flags: int, components: string)
    | ContentBody(kind: int, content: string, flags: int)
    | ErrorBody(error: string)

  datatype Response =
    | Plain(status: int, text: string)    // `new Response(text, { status })`
    | Json(status: int, body: Body)       // `new JsonResponse(body, …)`
    | Thrown                              // an exception escapes the handler

  const NotFoundText := "Not Found."
  const BadSignatureText := "Bad request signature."
  const MethodNotAllowedText := "Method Not Allowed."
  const UnknownType := Json(400, ErrorBody("Unknown Type"))
  const InvitePrefix := "https://discord.com/oauth2/authorize?client_id="
  const InviteSuffix := "&scope=applications.commands"

  /** The health check: a waving hand and the application id. */
  function HandleGet(env: Env): (r: Response)
    ensures r.Plain? && r.status == 200
  {
    Plain(200, "\U{1F44B} " + env.applicationId)
  }

  function InviteUrl(applicationId: string): string {
    InvitePrefix + applicationId + InviteSuffix
  }

  /** The reply to one slash command. */
  function RunCommand(c: Command, options: seq<string>, env: Env, members: Members): (r: Response)
    ensures r.Thrown? <==> c == StatsCommand && |options| == 0
    ensures r.Thrown? || r.Json?
    ensures r.Json? ==> r.status == 200
    ensures r.Json? && c != InviteCommand ==>
              r.body.ComponentsBody? && r.body.kind == ChannelMessageType && r.body.flags == ComponentsV2Flag
    ensures r.Json? && c == InviteCommand ==>
              r.body.ContentBody? && r.body.kind == ChannelMessageType && r.body.flags == EphemeralFlag
  {
    match c
    case LeaderboardCommand =>
      Json(200, ComponentsBody(ChannelMessageType, ComponentsV2Flag, Leaderboard.GetLeaderboard(members)))
    case StatsCommand =>
      // `options[0].value` throws when the option is missing
      if |options| == 0 then Thrown
      else Json(200, ComponentsBody(ChannelMessageType, ComponentsV2Flag, Stats.GetStats(members, options[0])))
    case UsersCommand =>
      Json(200, ComponentsBody(ChannelMessageType, ComponentsV2Flag, Users.GetUsers(members)))
    case InviteCommand =>
      Json(200, ContentBody(ChannelMessageType, InviteUrl(env.applicationId), EphemeralFlag))
  }

  /** `handlePost`, once the signature has been accepted. */
  function HandlePost(message: Interaction, env: Env, members: Members): (r: Response)
    ensures r == Json(200, PongBody(PongType)) <==> message.kind == PingType
    ensures r == UnknownType <==>
              message.kind != PingType
              && (message.kind != ApplicationCommandType || Resolve(message.commandName).None?)
    ensures r.Thrown? <==>
              message.kind == ApplicationCommandType
              && Resolve(message.commandName) == Some(StatsCommand) && |message.options| == 0
    ensures !r.Plain?
  {
    if message.kind == PingType then Json(200, PongBody(PongType))
    else if message.kind == ApplicationCommandType then
      match Resolve(message.commandName)
      case Some(c) => RunCommand(c, message.options, env, members)
      case None => UnknownType
    else UnknownType
  }

  /** A POST to the root whose signature checks out. */
  predicate Accepted(req: Request) {
    req.path == "/" && req.httpMethod == "POST" && req.signatureValid
  }

  /** The worker's `fetch` entry point. */
  function Fetch(req: Request, env: Env, members: Members): (r: Response)
    ensures r == Plain(404, NotFoundText) <==> req.path != "/"
    ensures r == HandleGet(env) <==> req.path == "/" && req.httpMethod == "GET"
    ensures r == Plain(401, BadSignatureText) <==> req.path == "/" && req.httpMethod == "POST" && !req.signatureValid
    ensures r == Plain(405, MethodNotAllowedText) <==> req.path == "/" && req.httpMethod != "GET" && req.httpMethod != "POST"
    ensures !r.Plain? <==> Accepted(req)
  {
    if req.path != "/" then Plain(404, NotFoundText)
    else if req.httpMethod == "GET" then HandleGet(env)
    else if req.httpMethod == "POST" then
      if !req.signatureValid then Plain(401, BadSignatureText)
      else HandlePost(req.message, env, members)
    else Plain(405, MethodNotAllowedText)
  }

  /** A signed application command whose name is `c`'s name in any letter case. */
  predicate Invokes(req: Request, c: Command) {
    Accepted(req) && req.message.kind == ApplicationCommandType && ToLower(req.message.commandName) == Name(c)
  }

  /** Every spelling of a command's name reaches that command and no other. */
  lemma DispatchesCommand(req: Request, env: Env, members: Members, c: Command)
    requires Invokes(req, c)
    ensures Fetch(req, env, members) == RunCommand(c, req.message.options, env, members)
  {
    ResolveExactly(req.message.commandName, c);
  }

  /** Lower-casing the command name of a request never changes the reply. */
  lemma FetchIgnoresCase(req: Request, env: Env, members: Members)
    ensures var lowered := req.(message := req.message.(commandName := ToLower(req.message.commandName)));
            Fetch(lowered, env, members) == Fetch(req, env, members)
  {
    ResolveIgnoresCase(req.message.commandName);
  }

  /** The health check names the application it belongs to. */
  lemma HealthCheck(req: Request, env: Env, members: Members)
    requires req.path == "/" && req.httpMethod == "GET"
    ensures var r := Fetch(req, env, members);
            && r.Plain? && r.status == 200
            && After(r.text, "\U{1F44B} ") == Some(env.applicationId)
  {
    AfterOf("\U{1F44B} ", env.applicationId);
  }

  /**
   * `/invite` answers privately (ephemeral flag) with the authorisation
   * link, and the application id can be read back from that link.
   */
  lemma InviteReply(req: Request, env: Env, members: Members)
    requires Invokes(req, InviteCommand)
    ensures var r := Fetch(req, env, members);
            && r.Json? && r.status == 200 && r.body.ContentBody?
            && r.body.kind == ChannelMessageType && r.body.flags == EphemeralFlag
            && Between(r.body.content, InvitePrefix, InviteSuffix) == Some(env.applicationId)
  {
    DispatchesCommand(req, env, members, InviteCommand);
    BetweenOf(InvitePrefix, env.applicationId, InviteSuffix);
  }

  /** `/users` sends the roster of the snapshot, readable back from the reply. */
  lemma UsersReply(req: Request, env: Env, members: Members)
    requires Invokes(req, UsersCommand)
    requires Users.SingleLine(members)
    ensures var r := Fetch(req, env, members);
            && r.Json? && r.body.ComponentsBody? && r.body.flags == ComponentsV2Flag
            && Users.ParseUsers(r.body.components) == Some(Users.Roster(members))
  {
    DispatchesCommand(req, env, members, UsersCommand);
    Users.UsersRoundTrip(members);
  }

  /** `/stats` with an id that is not in the snapshot says so. */
  lemma StatsUnknownReply(req: Request, env: Env, members: Members)
    requires Invokes(req, StatsCommand)
    requires |req.message.options| > 0
    requires forall i :: 0 <= i < |members| ==> members[i].0 != req.message.options[0]
    ensures var r := Fetch(req, env, members);
            && r.Json? && r.body.ComponentsBody? && r.body.flags == ComponentsV2Flag
            && r.body.components == Stats.NotFound(req.message.options[0])
  {
    DispatchesCommand(req, env, members, StatsCommand);
    Stats.StatsUnknownUser(members, req.message.options[0]);
  }

  /** `/lb` sends the table whose rows follow the ranking by local score. */
  lemma LeaderboardReply(req: Request, env: Env, members: Members)
    requires Invokes(req, LeaderboardCommand)
    ensures var r := Fetch(req, env, members);
            && r.Json? && r.body.ComponentsBody? && r.body.flags == ComponentsV2Flag
            && r.body.components == Leaderboard.GetLeaderboard(members)
  {
    DispatchesCommand(req, env, members, LeaderboardCommand);
  }
}

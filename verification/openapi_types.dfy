/** The slice of a dereferenced OpenAPI 3.x document and of the bridge's
    per-API configuration that the core reads (src/types.ts and the
    `openapi-types` shapes it uses). */
module OpenApi {
  import opened Wrappers
  import opened Records

  datatype HttpMethod = Get | Put | Post | Delete | Options | Head | Patch | Trace {
    /** The lower-case name the document and the index use. */
    function Name(): string {
      match this
      case Get => "get"
      case Put => "put"
      case Post => "post"
      case Delete => "delete"
      case Options => "options"
      case Head => "head"
      case Patch => "patch"
      case Trace => "trace"
    }

    /** `method.toUpperCase()`. */
    function Upper(): string {
      match this
      case Get => "GET"
      case Put => "PUT"
      case Post => "POST"
      case Delete => "DELETE"
      case Options => "OPTIONS"
      case Head => "HEAD"
      case Patch => "PATCH"
      case Trace => "TRACE"
    }
  }

  /** The eight methods a path item is scanned for, in scanning order. */
  const Methods: seq<HttpMethod> := [Get, Put, Post, Delete, Options, Head, Patch, Trace]

  datatype ParameterObject = ParameterObject(
    name: string,
    location: string,
    style: Option<string>,
    explode: Option<bool>)

  datatype ParameterOrRef = Param(param: ParameterObject) | ParamRef(ref: string)

  /** One alternative of a security list: scheme name to requested scopes,
      in declaration order. */
  type SecurityRequirement = Record<seq<string>>

  datatype Operation = Operation(
    operationId: Option<string>,
    summary: Option<string>,
    description: Option<string>,
    tags: Option<seq<string>>,
    parameters: Option<seq<ParameterOrRef>>,
    security: Option<seq<SecurityRequirement>>)

  datatype PathItem = PathItem(
    operations: map<HttpMethod, Operation>,
    parameters: Option<seq<ParameterOrRef>>)

  datatype ApiKeyLocation = InQuery | InHeader | InCookie

  datatype ClientCredentialsFlow = ClientCredentialsFlow(tokenUrl: string, scopes: Option<Record<string>>)

  datatype SecurityScheme =
    | ApiKeyScheme(location: ApiKeyLocation, name: string)
    | HttpScheme(scheme: string)
    | OAuth2Scheme(clientCredentials: Option<ClientCredentialsFlow>)
    | OtherScheme(typeName: string)

  datatype SchemeOrRef = Scheme(scheme: SecurityScheme) | SchemeRef(ref: string)

  datatype Server = Server(url: string)

  datatype Document = Document(
    openapi: Option<string>,
    paths: Option<seq<(string, Option<PathItem>)>>,
    servers: Option<seq<Server>>,
    security: Option<seq<SecurityRequirement>>,
    securitySchemes: Option<Record<SchemeOrRef>>)

  /** One indexed operation (`EndpointDefinition`). */
  datatype EndpointDefinition = EndpointDefinition(
    endpointId: string,
    httpMethod: HttpMethod,
    path: string,
    operationId: Option<string>,
    summary: Option<string>,
    description: Option<string>,
    tags: Option<seq<string>>,
    operation: Operation,
    pathItem: PathItem)

  datatype TokenAuthMethod = ClientSecretBasic | ClientSecretPost {
    function Name(): string {
      match this
      case ClientSecretBasic => "client_secret_basic"
      case ClientSecretPost => "client_secret_post"
    }
  }

  datatype ApiOAuth2Config = ApiOAuth2Config(
    tokenUrlOverride: Option<string>,
    scopes: Option<seq<string>>,
    tokenEndpointAuthMethod: Option<TokenAuthMethod>)

  /** `Retry429Config`: every field optional, numbers as JavaScript numbers. */
  datatype RetryConfig = RetryConfig(
    maxRetries: Option<real>,
    baseDelayMs: Option<real>,
    maxDelayMs: Option<real>,
    jitterRatio: Option<real>,
    respectRetryAfter: Option<bool>)

  datatype ApiConfig = ApiConfig(
    name: string,
    baseUrl: Option<string>,
    timeoutMs: Option<int>,
    headers: Option<Record<string>>,
    oauth2: Option<ApiOAuth2Config>,
    retry429: Option<RetryConfig>)

  datatype LoadedApi = LoadedApi(
    config: ApiConfig,
    schema: Document,
    baseUrl: string,
    endpoints: seq<EndpointDefinition>,
    endpointById: map<string, EndpointDefinition>,
    authSchemeNames: seq<string>)
}

/** The records of the application (types.ts) and the few shapes shared by
    several components. */
module Types {

  datatype Option<+T> = None | Some(value: T)

  /** The two GIF search providers. */
  datatype Provider = Giphy | Tenor

  /** One search result, already normalised from a provider's own JSON shape.
      `fixedHeightUrl` and `originalUrl` are `images.fixed_height.url` and
      `images.original.url`; the optional width/height strings are never set
      by the core and are not modelled. */
  datatype GifItem = GifItem(
    id: string,
    title: string,
    source: Provider,
    fixedHeightUrl: string,
    originalUrl: string,
    url: string)

  /** The three credentials. `openai` is optional in the source; every use of
      it only asks whether it is truthy, so an absent key is the empty
      string here. */
  datatype ApiKeys = ApiKeys(giphy: string, tenor: string, openai: string)

  datatype Role = User | Model

  /** Message ids: the literal 'welcome', or the decimal rendering of a
      millisecond clock reading, kept here as the reading itself. */
  datatype MessageId = Welcome | Stamp(ms: int)

  datatype ChatMessage = ChatMessage(id: MessageId, role: Role, text: string, memeUrl: Option<string>)

  /** A chat personality; only the fields the turn logic reads. */
  datatype Persona = Persona(id: string, name: string, welcome: string, systemInstruction: string)

  /** A turn in the chat-completions format of the secondary provider. */
  datatype TurnRole = System | UserTurn | Assistant
  datatype Turn = Turn(role: TurnRole, content: string)

  /** JavaScript truthiness of an optional string. */
  predicate Truthy(s: Option<string>)
  {
    s.Some? && s.value != ""
  }
}

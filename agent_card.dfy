/**
 The public agent card served at `/.well-known/agent.json`: a constant
 descriptor of the "Parrot Agent", its one skill and its capabilities.
 */
module AgentCards {

  datatype Capabilities = Capabilities(streaming: bool)

  datatype Skill = Skill(
    description: string,
    examples: seq<string>,
    id: string,
    name: string,
    tags: seq<string>)

  datatype AgentCard = AgentCard(
    capabilities: Capabilities,
    defaultInputModes: seq<string>,
    defaultOutputModes: seq<string>,
    description: string,
    name: string,
    protocolVersion: string,
    skills: seq<Skill>,
    url: string,
    version: string)

  /** The card returned on every descriptor request; it takes no input and never fails. */
  function PublicAgentCard(): (card: AgentCard)
    ensures card.capabilities.streaming
    ensures card.protocolVersion == "0.2.5"
    ensures |card.skills| == 1 && card.skills[0].id == "parrot"
    ensures card.defaultInputModes == ["text"] && card.defaultOutputModes == ["text"]
  {
    AgentCard(
      capabilities := Capabilities(streaming := true),
      defaultInputModes := ["text"],
      defaultOutputModes := ["text"],
      description := "Parrot agent",
      name := "Parrot Agent",
      protocolVersion := "0.2.5",
      skills := [
        Skill(
          description := "just returns received text",
          examples := ["hi", "hello world"],
          id := "parrot",
          name := "Parrot",
          tags := ["parrot"])
      ],
      url := "http://localhost:9999/",
      version := "1.0.0")
  }
}

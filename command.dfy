/** One entry of the knowledge base (internal/model/command.go). */
module Commands {
  /** A command snippet. `cmd` and `desc` are required in the data file;
      `tags`, `platform` and `examples` may be empty. */
  datatype Command = Command(
    cmd: string,
    desc: string,
    tags: seq<string>,
    platform: seq<string>,
    examples: seq<string>)
}

/** A zip archive as the readers see it: its name list, in archive order, and the lines of each
    member (`read(name).splitlines()`, decoded). */
module Archives {

  datatype Archive = Archive(names: seq<string>, content: string -> seq<string>)
}

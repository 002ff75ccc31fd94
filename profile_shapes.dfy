/** The parts of a validated profiler capture that the extraction reads:
    processes with their pages, counters and threads
    (src/schemas/profilerSchema.ts, src/schemas/threadSchemas.ts). Fields
    the core never reads are omitted. */
module ProfileShapes {
  import opened Wrappers
  import opened MarkerSchemas

  datatype Page = Page(url: string)

  /** A column-indexed sample table: `schema` names column indices, every
      row of `data` is one sample. */
  datatype SampleTable = SampleTable(schema: map<string, int>, data: seq<seq<real>>)

  datatype Counter = Counter(name: string, category: string, description: string, samples: SampleTable)

  /** A thread; `markers` is its marker table's `data`. */
  datatype Thread = Thread(name: string, markers: seq<Marker>)

  /** `counters` and `threads` are optional in the capture format. */
  datatype Process = Process(pages: seq<Page>, counters: Option<seq<Counter>>, threads: Option<seq<Thread>>)

  datatype Profile = Profile(processes: seq<Process>)
}

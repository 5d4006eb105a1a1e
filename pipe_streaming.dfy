/**
 * `lib/pipe/streaming.js`: several sources may be piped into one destination.
 * The first pipe to a destination merges its source into a new merged stream
 * that is piped into the destination and registered under it; later pipes add
 * their source to that merged stream. Once the destination finishes, its entry
 * is dropped. Each pipe also raises the listener limits of both streams for as
 * long as the pipe's abort signal has not fired.
 */
module PipeStreaming {
  import Utils

  /** `SOURCE_LISTENERS_PER_PIPE`: listeners the merged stream puts on a source. */
  const SourceListenersPerPipe: nat := 2

  /** `DESTINATION_LISTENERS_PER_PIPE`: the listener `finished()` puts on the destination. */
  const DestinationListenersPerPipe: nat := 1

  /** A stream made by `mergeStreams`, piped into `destination`, reading from `sources`. */
  class MergedStream {
    var sources: set<Utils.Stream>
    const destination: Utils.Stream

    /** `mergeStreams([source])`, then `pipeStreams(mergedStream, destination)`. */
    constructor (source: Utils.Stream, destination: Utils.Stream)
      ensures sources == {source} && this.destination == destination
    {
      sources := {source};
      this.destination := destination;
    }

    /** `mergedStream.add(source)`. */
    method Add(source: Utils.Stream)
      modifies this
      ensures sources == old(sources) + {source}
    {
      sources := sources + {source};
    }
  }

  /** The `MERGED_STREAMS` map, from each destination to the merged stream piped into it. */
  class Registry {
    var merged: map<Utils.Stream, MergedStream>

    /** Every entry is the merged stream piped into its key, and has a source. */
    ghost predicate Valid()
      reads this, merged.Values
    {
      forall d :: d in merged ==> merged[d].destination == d && merged[d].sources != {}
    }

    constructor ()
      ensures Valid() && merged == map[]
    {
      merged := map[];
    }

    /** `pipeFirstProcessStream`: a new merged stream holding only `source`, registered under `destination`. */
    method PipeFirstProcessStream(source: Utils.Stream, destination: Utils.Stream) returns (m: MergedStream)
      requires Valid()
      modifies this
      ensures Valid()
      ensures fresh(m) && m.sources == {source} && m.destination == destination
      ensures merged == old(merged)[destination := m]
    {
      m := new MergedStream(source, destination);
      merged := merged[destination := m];
    }

    /** `pipeMoreProcessStream`: `source` joins the merged stream already registered for `destination`. */
    method PipeMoreProcessStream(source: Utils.Stream, destination: Utils.Stream) returns (m: MergedStream)
      requires Valid() && destination in merged
      modifies merged[destination]
      ensures Valid()
      ensures m == merged[destination] && m.sources == old(m.sources) + {source}
    {
      m := merged[destination];
      m.Add(source);
    }

    /**
     * `pipeProcessStream`. The destination's entry is reused or created, and the
     * listener limits of the source and of the destination are raised by 2 and 1
     * through `incrementMaxListeners` on the controller's signal.
     */
    method PipeProcessStream(source: Utils.Stream, destination: Utils.Stream, signal: Utils.AbortSignal)
      returns (m: MergedStream)
      requires Valid() && signal.Valid()
      modifies this, if destination in merged then {merged[destination]} else {}
      modifies source`maxListeners, destination`maxListeners, signal`listeners
      ensures Valid() && signal.Valid()
      // the registry
      ensures destination in merged && merged[destination] == m && m.destination == destination
      ensures destination in old(merged) ==>
        m == old(merged[destination]) && merged == old(merged) && m.sources == old(m.sources) + {source}
      ensures destination !in old(merged) ==>
        fresh(m) && m.sources == {source} && merged == old(merged)[destination := m]
      ensures forall d :: d in old(merged) && d != destination ==> merged[d].sources == old(merged[d].sources)
      // the listener limits
      ensures source != destination ==>
        source.maxListeners == Utils.Incremented(old(source.maxListeners), SourceListenersPerPipe, signal.aborted)
        && destination.maxListeners
           == Utils.Incremented(old(destination.maxListeners), DestinationListenersPerPipe, signal.aborted)
      ensures source == destination ==>
        source.maxListeners == Utils.Incremented(
          Utils.Incremented(old(source.maxListeners), SourceListenersPerPipe, signal.aborted),
          DestinationListenersPerPipe, signal.aborted)
      ensures source != destination ==>
        signal.listeners == old(signal.listeners)
          + Utils.Registered(old(source.maxListeners), source, SourceListenersPerPipe, signal.aborted)
          + Utils.Registered(old(destination.maxListeners), destination, DestinationListenersPerPipe, signal.aborted)
    {
      if destination in merged {
        m := PipeMoreProcessStream(source, destination);
      } else {
        m := PipeFirstProcessStream(source, destination);
      }
      Utils.IncrementMaxListeners(source, SourceListenersPerPipe, signal);
      Utils.IncrementMaxListeners(destination, DestinationListenersPerPipe, signal);
    }

    /**
     * The end of `cleanupMergedStreamsMap`: once `destination` has finished, with
     * or without an error, its entry is deleted.
     */
    method DestinationFinished(destination: Utils.Stream)
      requires Valid()
      modifies this
      ensures Valid()
      ensures destination !in merged
      ensures merged == old(merged) - {destination}
    {
      merged := merged - {destination};
    }
  }

  /**
   * Two pipes into one destination share one merged stream holding both
   * sources; after the destination finishes, a third pipe starts a new one that
   * holds only its own source.
   */
  method TwoPipesThenFinish(
    registry: Registry, first: Utils.Stream, second: Utils.Stream, third: Utils.Stream,
    destination: Utils.Stream, signal: Utils.AbortSignal)
    returns (a: MergedStream, b: MergedStream, c: MergedStream)
    requires registry.Valid() && signal.Valid()
    modifies registry, registry.merged.Values, signal`listeners
    modifies first`maxListeners, second`maxListeners, third`maxListeners, destination`maxListeners
    ensures a == b && a.sources >= {first, second}
    ensures fresh(c) && c != a && c.sources == {third}
    ensures registry.Valid() && destination in registry.merged && registry.merged[destination] == c
  {
    a, b := TwoPipes(registry, first, second, destination, signal);
    c := PipeAfterFinish(registry, third, destination, signal);
  }

  /** Two pipes into one destination: the second joins the merged stream the first created or found. */
  method TwoPipes(
    registry: Registry, first: Utils.Stream, second: Utils.Stream,
    destination: Utils.Stream, signal: Utils.AbortSignal)
    returns (a: MergedStream, b: MergedStream)
    requires registry.Valid() && signal.Valid()
    modifies registry, registry.merged.Values, signal`listeners
    modifies first`maxListeners, second`maxListeners, destination`maxListeners
    ensures a == b && a.sources >= {first, second}
    ensures registry.Valid() && signal.Valid()
  {
    a := registry.PipeProcessStream(first, destination, signal);
    b := registry.PipeProcessStream(second, destination, signal);
  }

  /** Once the destination has finished, the next pipe into it starts a fresh merged stream. */
  method PipeAfterFinish(
    registry: Registry, source: Utils.Stream, destination: Utils.Stream, signal: Utils.AbortSignal)
    returns (c: MergedStream)
    requires registry.Valid() && signal.Valid()
    modifies registry, signal`listeners, source`maxListeners, destination`maxListeners
    ensures fresh(c) && c.sources == {source}
    ensures registry.Valid() && destination in registry.merged && registry.merged[destination] == c
  {
    registry.DestinationFinished(destination);
    c := registry.PipeProcessStream(source, destination, signal);
  }
}

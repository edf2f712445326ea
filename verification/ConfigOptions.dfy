/** Merging the configuration options an agent advertises into those already stored for it. */
module ConfigOptions {
  import opened Prelude

  datatype ConfigOption = ConfigOption(id: string, value: string)

  /** A stored or received `config_options` value: an option list, or something that does not decode as one. */
  datatype ConfigValue = Options(options: seq<ConfigOption>) | Opaque(text: string)

  /** The first option with `id`: what a reader of the list finds. */
  function Find(options: seq<ConfigOption>, id: string): Option<ConfigOption> {
    if options == [] then None else if options[0].id == id then Some(options[0]) else Find(options[1..], id)
  }

  /** The last option with `id`. */
  function FindLast(options: seq<ConfigOption>, id: string): Option<ConfigOption> {
    if options == [] then None else Or(FindLast(options[1..], id), if options[0].id == id then Some(options[0])
        else None)
  }

  /** Replace the first option with the same id in place, or append. */
  function Put(options: seq<ConfigOption>, o: ConfigOption): seq<ConfigOption> {
    if options == [] then [o]
    else if options[0].id == o.id then [o] + options[1..]
    else [options[0]] + Put(options[1..], o)
  }

  function PutAll(options: seq<ConfigOption>, incoming: seq<ConfigOption>): seq<ConfigOption>
    decreases |incoming|
  {
    if incoming == [] then options else PutAll(Put(options, incoming[0]), incoming[1..])
  }

  function Merge(existing: Option<seq<ConfigOption>>, incoming: seq<ConfigOption>): seq<ConfigOption> {
    match existing
    case None => incoming
    case Some(options) => PutAll(options, incoming)
  }

  lemma {:induction false} PutFind(options: seq<ConfigOption>, o: ConfigOption, id: string)
    ensures Find(Put(options, o), id) == if id == o.id then Some(o) else Find(options, id)
    ensures |Put(options, o)| >= |options|
    ensures forall i :: 0 <= i < |options| ==> Put(options, o)[i].id == options[i].id
  {
    if options != [] && options[0].id != o.id {
      PutFind(options[1..], o, id);
      var p := Put(options[1..], o);
      forall i | 0 <= i < |options|
        ensures Put(options, o)[i].id == options[i].id
      {
        if i > 0 { assert p[i - 1].id == options[1..][i - 1].id; }
      }
      assert ([options[0]] + p)[1..] == p;
    } else if options != [] {
      assert ([o] + options[1..])[1..] == options[1..];
    }
  }

  lemma {:induction false} PutAllFind(options: seq<ConfigOption>, incoming: seq<ConfigOption>, id: string)
    ensures Find(PutAll(options, incoming), id) == Or(FindLast(incoming, id), Find(options, id))
    ensures |PutAll(options, incoming)| >= |options|
    ensures forall i :: 0 <= i < |options| ==> PutAll(options, incoming)[i].id == options[i].id
    decreases |incoming|
  {
    if incoming != [] {
      PutFind(options, incoming[0], id);
      PutAllFind(Put(options, incoming[0]), incoming[1..], id);
    }
  }

  /**
   What a reader finds after a merge into a stored list: the last incoming option with that id,
   otherwise the stored one; and the stored options keep their places.  With nothing stored the
   incoming list is taken as it is, so there the first one wins.
   */
  lemma MergeFinds(existing: Option<seq<ConfigOption>>, incoming: seq<ConfigOption>, id: string)
    ensures existing == None ==> Find(Merge(existing, incoming), id) == Find(incoming, id)
    ensures existing.Some? ==>
              && Find(Merge(existing, incoming), id) == Or(FindLast(incoming, id), Find(existing.value, id))
              && |Merge(existing, incoming)| >= |existing.value|
              && forall i :: 0 <= i < |existing.value| ==> Merge(existing, incoming)[i].id == existing.value[i].id
  {
    if existing.Some? { PutAllFind(existing.value, incoming, id); }
  }

  /** The loop of `merge_config_options`, updating the merged list in place. */
  method MergeConfigOptions(existing: Option<seq<ConfigOption>>, incoming: seq<ConfigOption>)
    returns (merged: seq<ConfigOption>)
    ensures merged == Merge(existing, incoming)
  {
    if existing.None? {
      return incoming;
    }
    merged := existing.value;
    var n := 0;
    while n < |incoming|
      invariant 0 <= n <= |incoming|
      invariant PutAll(merged, incoming[n..]) == PutAll(existing.value, incoming)
    {
      var option := incoming[n];
      var i := 0;
      while i < |merged| && merged[i].id != option.id
        invariant 0 <= i <= |merged|
        invariant forall j :: 0 <= j < i ==> merged[j].id != option.id
      {
        i := i + 1;
      }
      PutAt(merged, option, i);
      assert incoming[n..][1..] == incoming[n + 1..];
      merged := if i < |merged| then merged[i := option] else merged + [option];
      n := n + 1;
    }
  }

  lemma {:induction false} PutAt(options: seq<ConfigOption>, o: ConfigOption, i: nat)
    requires i <= |options| && (forall j :: 0 <= j < i ==> options[j].id != o.id)
             && (i < |options| ==> options[i].id == o.id)
    ensures Put(options, o) == if i < |options| then options[i := o] else options + [o]
  {
    if i > 0 {
      PutAt(options[1..], o, i - 1);
    }
  }
}

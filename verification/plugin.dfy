/**
 * The jQuery binding `$.fn.ticker`: for every element of the selection, build a
 * Ticker unless the element already carries one under its `plugin_ticker` data key.
 */
module Plugin {
  import opened Wrappers
  import opened Config
  import opened TickerWidget

  /** An element of the selection: its identity, its children's heights and their `ticker-duration` data. */
  datatype Element = Element(id: nat, heights: seq<real>, durations: seq<Option<int>>)

  /** Each element has at least one child, and one data entry per child. */
  predicate Bindable(e: Element) {
    |e.heights| >= 1 && |e.durations| == |e.heights|
  }

  /** The per-element data store, reduced to its `plugin_ticker` key. */
  class Registry {
    var instances: map<nat, Ticker>

    constructor ()
      ensures instances == map[]
    {
      instances := map[];
    }

    /**
     * Binds the plugin to each element in turn. An element that already has an
     * instance keeps it; every other element gets a fresh Ticker built with the
     * caller's options.
     */
    method BindTicker(selection: seq<Element>, user: UserOptions)
      requires forall e :: e in selection ==> Bindable(e)
      modifies this
      ensures instances.Keys == old(instances).Keys + (set e | e in selection :: e.id)
      ensures forall k :: k in old(instances) ==> instances[k] == old(instances)[k]
      ensures forall k :: k in instances && k !in old(instances) ==>
        fresh(instances[k]) && instances[k].options == Configure(user)
    {
      var i := 0;
      while i < |selection|
        invariant 0 <= i <= |selection|
        invariant instances.Keys == old(instances).Keys + (set e | e in selection[..i] :: e.id)
        invariant forall k :: k in old(instances) ==> instances[k] == old(instances)[k]
        invariant forall k :: k in instances && k !in old(instances) ==>
          fresh(instances[k]) && instances[k].options == Configure(user)
      {
        var e := selection[i];
        assert Bindable(e);
        if e.id !in instances {
          var t := new Ticker(e.heights, e.durations, user);
          instances := instances[e.id := t];
        }
        assert selection[..i + 1] == selection[..i] + [e];
        i := i + 1;
      }
      assert selection[..i] == selection;
    }
  }
}

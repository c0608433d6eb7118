// Assembler selection and render-data invalidation (`_flushAssembler`).
// The assembler-resolution service, the assemblers themselves and the
// render data they allocate belong to the UI renderer; here an assembler is
// an identity plus whether it offers `createData`, and render data records
// the assembler that created it and the material bound to it.
module RenderState {

  datatype Option<T> = None | Some(value: T)

  /** An assembler, compared by identity; `createsData` says whether it has `createData`. */
  datatype Assembler = Assembler(id: nat, createsData: bool)

  /** Render data as `createData` returns it, with the shared material assigned. */
  datatype RenderData = RenderData(createdBy: Assembler, material: nat)

  /** The render data that survives the identity check: none if the primary assembler changed. */
  function KeptRenderData(current: Option<Assembler>, data: Option<RenderData>, resolved: Option<Assembler>): Option<RenderData> {
    if current != resolved then None else data
  }

  /**
   * The render data after a flush that resolved `resolved` as the primary
   * assembler, given the `current` assembler and `data` before it.
   */
  function FlushedRenderData(current: Option<Assembler>, data: Option<RenderData>,
                             resolved: Option<Assembler>, material: nat): (r: Option<RenderData>)
    // the old data survives exactly when the primary assembler is unchanged
    ensures current == resolved && data.Some? ==> r == data
    // a change of primary assembler never lets the old data through
    ensures current != resolved && r.Some? ==> resolved == Some(r.value.createdBy) && r.value.material == material
    // data not carried over is fresh from the resolved assembler, with the given material
    ensures r.Some? && !(current == resolved && data.Some?) ==> resolved.Some? && r.value == RenderData(resolved.value, material)
    // data is present exactly when old data was kept or the resolved assembler can create it
    ensures r.Some? <==> (current == resolved && data.Some?) || (resolved.Some? && resolved.value.createsData)
  {
    var kept := KeptRenderData(current, data, resolved);
    if kept.Some? then kept
    else if resolved.Some? && resolved.value.createsData then Some(RenderData(resolved.value, material))
    else None
  }

  /**
   * A second flush that resolves the same assemblers changes nothing: the
   * render data the first one left behind is kept.
   */
  lemma FlushIdempotent(current: Option<Assembler>, data: Option<RenderData>,
                        resolved: Option<Assembler>, material: nat, material2: nat)
    ensures var once := FlushedRenderData(current, data, resolved, material);
            FlushedRenderData(resolved, once, resolved, material2) == once
  {
  }

  /**
   * Data a flush keeps or creates always belongs to the assembler it
   * resolved, provided the data it started from belonged to the current one.
   */
  lemma FlushKeepsDataWithItsAssembler(current: Option<Assembler>, data: Option<RenderData>,
                                       resolved: Option<Assembler>, material: nat)
    requires data.Some? ==> current == Some(data.value.createdBy)
    ensures var r := FlushedRenderData(current, data, resolved, material);
            r.Some? ==> resolved == Some(r.value.createdBy)
  {
  }
}

/**
 * The render status the rendering hook reports to the components. The hook
 * itself is not part of this model: its state is an input to every event.
 */
module RenderingState {

  datatype State =
    | Init
    | Invoking
    | Rendering(progress: real)
    | Done(url: string, size: nat)
    | Error(message: string)
}

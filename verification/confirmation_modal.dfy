/** The confirmation-dialog hook: open with a partial configuration over the
    defaults, close back to the defaults, and run the confirm action, which
    closes the dialog whether it succeeds or fails. */
module ConfirmationModal {
  import opened Common

  datatype Variant = Danger | Warning | Info

  /** The confirm callback, identified only; its effect is outside the hook. */
  datatype Action = NoAction | Callback(id: nat)

  datatype ModalState = ModalState(
    isOpen: bool,
    title: string,
    message: string,
    confirmText: string,
    cancelText: string,
    variant: Variant,
    onConfirm: Action)

  const DefaultModal: ModalState := ModalState(false, "", "", "Confirm", "Cancel", Danger, NoAction)

  /** `Partial<ConfirmationModalState>`: each field may be left out. */
  datatype Config = Config(
    isOpen: Option<bool>,
    title: Option<string>,
    message: Option<string>,
    confirmText: Option<string>,
    cancelText: Option<string>,
    variant: Option<Variant>,
    onConfirm: Option<Action>)

  /** The hook's two pieces of state. */
  datatype Hook = Hook(modal: ModalState, isLoading: bool)

  const InitialHook: Hook := Hook(DefaultModal, false)

  /** `showModal`: `{...defaultState, ...config, isOpen: true}`. */
  function ShowModal(h: Hook, config: Config): (r: Hook)
    ensures r.modal.isOpen
    ensures r.modal.title == config.title.GetOr(DefaultModal.title)
    ensures r.modal.message == config.message.GetOr(DefaultModal.message)
    ensures r.modal.confirmText == config.confirmText.GetOr(DefaultModal.confirmText)
    ensures r.modal.cancelText == config.cancelText.GetOr(DefaultModal.cancelText)
    ensures r.modal.variant == config.variant.GetOr(DefaultModal.variant)
    ensures r.modal.onConfirm == config.onConfirm.GetOr(DefaultModal.onConfirm)
    ensures r.isLoading == h.isLoading
  {
    var spread := ModalState(
      config.isOpen.GetOr(DefaultModal.isOpen),
      config.title.GetOr(DefaultModal.title),
      config.message.GetOr(DefaultModal.message),
      config.confirmText.GetOr(DefaultModal.confirmText),
      config.cancelText.GetOr(DefaultModal.cancelText),
      config.variant.GetOr(DefaultModal.variant),
      config.onConfirm.GetOr(DefaultModal.onConfirm));
    Hook(spread.(isOpen := true), h.isLoading)
  }

  /** `hideModal`. */
  function HideModal(h: Hook): (r: Hook)
    ensures !r.modal.isOpen && !r.isLoading
    ensures r.modal.confirmText == "Confirm" && r.modal.cancelText == "Cancel" && r.modal.variant == Danger
    ensures r == InitialHook
  {
    Hook(DefaultModal, false)
  }

  /** The settled result of `confirm`: the hook, the action that was run, and
      the error it logged, if any. */
  datatype Confirmed = Confirmed(hook: Hook, invoked: Action, logged: Option<string>)

  /** `confirm`: runs the current action; its failure is logged, not
      rethrown; the dialog is closed and loading off in every case. */
  function Confirm(h: Hook, result: Outcome): (r: Confirmed)
    ensures r.hook == InitialHook
    ensures r.invoked == h.modal.onConfirm
    ensures r.logged.Some? <==> result.Err?
    ensures result.Err? ==> r.logged == Some(result.error)
  {
    var logged := if result.Err? then Some(result.error) else None;
    Confirmed(HideModal(h.(isLoading := true)), h.modal.onConfirm, logged)
  }

  /** Whatever the action does, confirming leaves the same state. */
  lemma ConfirmOutcomeIrrelevant(h: Hook, e: string)
    ensures Confirm(h, Ok).hook == Confirm(h, Err(e)).hook
  {
  }

  /** Showing a dialog and confirming it runs exactly the configured action
      and returns to the initial state. */
  lemma ShowThenConfirm(h: Hook, config: Config, result: Outcome)
    ensures var c := Confirm(ShowModal(h, config), result);
            c.invoked == config.onConfirm.GetOr(NoAction) && c.hook == InitialHook
  {
  }

  /** `isOpen: false` in a configuration does not keep the dialog closed. */
  lemma ConfigCannotKeepClosed(h: Hook, config: Config)
    requires config.isOpen == Some(false)
    ensures ShowModal(h, config).modal.isOpen
  {
  }
}

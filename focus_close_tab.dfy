/** `KittenFocusTabCommand`: bring the tab with this id to the front. */
module FocusTab {
  datatype KittenFocusTabCommand = KittenFocusTabCommand(tabId: nat)
}

/** `KittenCloseTabCommand`: close the tab with this id. */
module CloseTab {
  datatype KittenCloseTabCommand = KittenCloseTabCommand(tabId: nat)
}
